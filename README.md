# python-mastery record stores, readers and table formatters in Dafny

This project models the core of the python-mastery exercises. Every reader takes rows that have already been split into fields and skips one header row.

- **`reader.py`**
  - `DataCollection` keeps one list per column in a dict and builds records on demand. `__len__` reads the first column; `__getitem__` zips the sliced columns back into records; `append` pushes each field of a dict onto its column.
  - The readers `read_csv_as_dicts`, `read_csv_as_columns` and `read_csv_as_instances`.
- **`readrides.py`**
  - The bus-ride readers `read_rides_as_tuples`, `read_rides_as_columns` and `read_rides_as_dict`.
  - `RideData`, a column store with four fixed lists.
- **`tableformat.py`**
  - The text, CSV and HTML formatters.
  - The column-format and upper-case-headers mixins.
  - The `create_formatter` factory.
  - `print_table`.
- **`stock.py`**: the `Stock` object, with its validating `shares` and `price` setters, `sell`, `from_row` and `read_portfolio`.

Modules:

- `Builtins`:
  - values, exceptions, `Result`, `Option`;
  - dicts that keep insertion order, as keys plus a map;
  - Python slices;
  - `MapRows`, the loop every reader runs.
- `Conversions`: `str`, `int` and `float` on one field.
- `Strings`: `join`, `split`, `rjust` and `upper`.
- `Reader`, `ReadRides`, `TableFormat` and `Stock`: one module per source file.

Classes whose fields the source updates in place are Dafny classes:

- `DataCollection`;
- `RideData`;
- `Stock`.

Loops that build a result step by step are methods with loop invariants, each proved against a specification function. Examples:

- `Collect` against `MapRows`;
- `AppendColumns` against `Grown`;
- `ZipColumns` against `ZipRows`;
- `PrintRows` against `RowLines`.

Python exceptions are `Err` results. Printing is modelled as lines appended to an output sequence.

## Model

| member | source | states |
|---|---|---|
| Builtins.Dedup | src/exc_2_6/reader.py:7 | the keys of a dict built from a header: distinct, exactly the header's names, and the header itself when it has no repeats |
| Builtins.DedupOrder | src/exc_2_6/reader.py:7 | dict keys keep the order in which each name first appears |
| Builtins.DictOf | src/exc_2_6/reader.py:36-40 | a dict comprehension yields a well-formed dict whose keys are the names in order of first occurrence |
| Builtins.DictOfLastWins | src/exc_2_6/reader.py:36-40 | for a repeated name, the comprehension keeps the value paired with its last occurrence |
| Builtins.SliceElements | src/exc_2_6/reader.py:13 | a slice is a run of consecutive elements from the normalised start and never runs past the end |
| Builtins.SliceInRange | src/exc_2_6/reader.py:13 | an in-range slice is the subsequence; a reversed range gives an empty list |
| Builtins.MapRowsResults | src/exc_2_6/reader.py:35-41 | a reader loop succeeds exactly when the row function succeeds on every row, and then gives one result per row in row order; otherwise it raises what the first failing row raises |
| Builtins.MapRowsStopsAtFailure | src/exc_2_6/reader.py:35-41 | after a failing row, the rows that follow cannot change the outcome |
| Builtins.Collect | src/exc_2_6/reader.py:31-42 | the imperative append loop computes exactly `MapRows` |
| Conversions.ParseInt | src/exc_2_6/reader.py:37 | `int` accepts exactly an optional `+` or `-` followed by at least one decimal digit; the value is the digits' value, negated after `-`; any other text raises ValueError carrying the text |
| Conversions.DecimalRoundTrip | src/exc_2_6/reader.py:37 | reading the decimal digits of a natural number gives the number back |
| Conversions.IntRoundTrip | src/exc_2_6/reader.py:37 | `int(str(n)) == n` for every integer |
| Conversions.ParseFloat | src/exc_1_5/stock.py:15 | `float` rejects text with ValueError carrying the text |
| Conversions.IntTextIsFloatText | src/exc_1_5/stock.py:15 | every text `int` accepts, `float` accepts too, with the same value |
| Conversions.Convert | src/exc_2_6/reader.py:37 | `str` never fails and keeps the text; `int` succeeds exactly when `ParseInt` accepts the text and yields that int, `float` exactly when `ParseFloat` does and yields that float; either one otherwise raises ValueError carrying the text |
| Conversions.ConvertAll | src/exc_1_5/stock.py:15 | the zip of types and fields stops at the shorter of the two |
| Conversions.ConvertAllResults | src/exc_1_5/stock.py:15 | the converted list exists exactly when every paired conversion succeeds, holds those results in order, and otherwise carries the first failure |
| Strings.Split | src/exc_3_2/tableformat.py:43 | a reference `str.split` on one character, used as the inverse of the comma and space joins (the source never splits): it gives at least one piece and no piece contains the separator |
| Strings.SplitJoin | src/exc_3_2/tableformat.py:43 | splitting a line joined on one character gives back the parts, when no part contains that character |
| Strings.JoinSplit | src/exc_3_2/tableformat.py:43 | joining the pieces of a split restores the text |
| Strings.JoinLength | src/exc_3_2/tableformat.py:34 | a joined line is as long as its parts plus one separator between each two |
| Strings.RJust | src/exc_3_2/tableformat.py:34 | right-justifying pads on the left with spaces up to the width, keeps the whole text and never truncates |
| Strings.Upper | src/exc_3_2/tableformat.py:16 | upper-casing keeps the length, turns each lower-case ASCII letter into its own capital, and leaves every other character as it is |
| Strings.UpperIdempotent | src/exc_3_2/tableformat.py:16 | upper-casing twice is upper-casing once |
| TableFormat.Headings | src/exc_3_2/tableformat.py:33-55 | headings print two lines for text (names and rule) and one line for CSV and HTML |
| TableFormat.Row | src/exc_3_2/tableformat.py:37-59 | a row call prints exactly one line in every dialect |
| TableFormat.FormatCells | src/exc_3_2/tableformat.py:10 | the column formats apply pairwise and the row is cut to the shorter of formats and values |
| TableFormat.PaddedLength | src/exc_3_2/tableformat.py:34 | values no wider than ten take exactly ten characters each once right-justified, so a padded line's cells total ten characters per value |
| TableFormat.TextColumnsAlign | src/exc_3_2/tableformat.py:33-38 | with headers and values no wider than ten: header `i`, value `i` (both right-justified) and ten dashes all sit at characters `11i` to `11i+9`, with a space at `11i+10` between columns; heading line and row are `11n-1` long and the rule `11n` |
| TableFormat.JoinedCells | src/exc_3_2/tableformat.py:34 | ten-character cells joined by spaces: cell `i` at characters `11i` to `11i+9`, a space after every cell but the last |
| TableFormat.TextLine | src/exc_3_2/tableformat.py:38 | a text line of values no wider than ten holds value `i`, right-justified, at characters `11i` to `11i+9` |
| TableFormat.RuleCells | src/exc_3_2/tableformat.py:35 | column `i` of the rule is ten dashes followed by a space |
| TableFormat.TextCellsKeepValues | src/exc_3_2/tableformat.py:34 | a text cell holds its whole value, right-justified |
| TableFormat.CsvRoundTrip | src/exc_3_2/tableformat.py:41-46 | a CSV heading line or row split on commas gives back the headers or values when none contains a comma |
| TableFormat.HtmlSplit | src/exc_3_2/tableformat.py:53-59 | an HTML line is the row tags around one tagged cell per item |
| TableFormat.HtmlLayout | src/exc_3_2/tableformat.py:49-59 | HTML headings use `<th>` cells and rows use `<td>` cells inside `<tr>` and `</tr>` |
| TableFormat.StripUpper | src/exc_3_2/tableformat.py:14-16 | a reference formatter with every upper-case layer removed, used to state that the mixin leaves rows alone: it keeps the same base dialect |
| TableFormat.UpperAllIdempotent | src/exc_3_2/tableformat.py:16 | upper-casing the headers twice is the same as once |
| TableFormat.RowIgnoresUpper | src/exc_3_2/tableformat.py:14-16 | the upper-case mixin never changes a row |
| TableFormat.HeadingsThroughMixins | src/exc_3_2/tableformat.py:6-16 | through any stack of mixins, the headings are the base dialect's, upper-cased exactly when an upper-case mixin is present |
| TableFormat.MixinsCommute | src/exc_3_2/tableformat.py:6-16 | the two mixins give the same output in either order |
| TableFormat.ColumnFormatTruncates | src/exc_3_2/tableformat.py:9-11 | with column formats over CSV, a row has one field per format-and-value pair |
| TableFormat.CreateFormatter | src/exc_3_2/tableformat.py:62-85 | an unknown dialect name raises ValueError("Wrong format selected"); otherwise the formatter has that dialect, has the upper-case mixin exactly when asked for, and has column formats exactly when the list is non-empty |
| TableFormat.CreatedFormatterOutput | src/exc_3_2/tableformat.py:62-85 | a factory-made formatter prints the dialect's headings (upper-cased when asked) and rows (formatted when formats are given) |
| TableFormat.ProjectFields | src/exc_3_2/tableformat.py:93 | projecting a record succeeds exactly when it has every attribute, and gives them in `attrs` order; otherwise AttributeError names the first missing one |
| TableFormat.Printable | src/exc_3_2/tableformat.py:92-94 | the count of leading records that have every attribute; the next record lacks one |
| TableFormat.RowLinesLength | src/exc_3_2/tableformat.py:92-94 | the printable records give one output line each |
| TableFormat.RowLinesAt | src/exc_3_2/tableformat.py:92-94 | output line `i` is the formatter's row for record `i`'s attributes |
| TableFormat.RowLinesOfLines | src/exc_3_2/tableformat.py:92-94 | for any row function printing one line per call, the printable records give one line each, line `i` being record `i`'s |
| TableFormat.RowLinesStep | src/exc_3_2/tableformat.py:92-94 | one more printable record adds its row after the earlier rows |
| TableFormat.PrintableStops | src/exc_3_2/tableformat.py:92-94 | the first record lacking an attribute ends the printable prefix |
| TableFormat.PrintRows | src/exc_3_2/tableformat.py:92-94 | the loop prints the rows of the printable prefix in order, then raises the AttributeError of the first record lacking an attribute, if any |
| TableFormat.PrintTable | src/exc_3_2/tableformat.py:88-94 | a missing formatter raises TypeError and prints nothing; otherwise headings come first, then one row per record in order, up to the first record lacking an attribute (a `%` column format that rejects its value is not modelled, see below) |
| Reader.DecodeRow | src/exc_2_6/reader.py:36-40 | a decoded record is a well-formed dict keyed by the zipped header names |
| Reader.DecodeRowResults | src/exc_2_6/reader.py:36-40 | a row decodes exactly when every zipped conversion succeeds; otherwise it raises the first failure |
| Reader.DecodedField | src/exc_2_6/reader.py:36-40 | a name that is zipped and not repeated later maps to its own field, converted by its own type |
| Reader.ReadCsvAsDicts | src/exc_2_6/reader.py:30-42 | no header raises StopIteration; otherwise each remaining row is decoded, in order |
| Reader.ReadCsvAsInstances | src/exc_2_6/reader.py:64-71 | the header is skipped and `from_row` is called on each remaining row, in order; a class without `from_row` raises AttributeError at the first data row |
| Reader.KnownKeys | src/exc_2_6/reader.py:26-27 | how far `append` gets: the keys before it are columns, and the key at it is not |
| Reader.Grown | src/exc_2_6/reader.py:26-27 | growing the columns never adds or removes a column |
| Reader.GrownNone | src/exc_2_6/reader.py:26-27 | before the first key, no column has grown |
| Reader.GrownStep | src/exc_2_6/reader.py:26-27 | each key processed adds its value to its own column only |
| Reader.AppendColumns | src/exc_2_6/reader.py:25-27 | append pushes each key's value onto its column, in key order, and raises KeyError at the first unknown key, after the earlier keys were pushed |
| Reader.AppendExactKeys | src/exc_2_6/reader.py:25-27 | a record with exactly the store's keys grows every column by its value and keeps the columns equally long |
| Reader.AppendUnknownKey | src/exc_2_6/reader.py:25-27 | an unknown key stops the append, and the keys before it have already grown their columns |
| Reader.AppendMissingKey | src/exc_2_6/reader.py:25-27 | a record lacking a column leaves that column one shorter, so the columns are no longer equally long |
| Reader.SlicedColumns | src/exc_2_6/reader.py:13 | slicing every column keeps the same columns |
| Reader.SlicedInRange | src/exc_2_6/reader.py:13 | an in-range slice of every column is each column's subsequence |
| Reader.MinLen | src/exc_2_6/reader.py:19 | the zip of the columns is as long as the shortest column |
| Reader.ZipRows | src/exc_2_6/reader.py:19-22 | zipping gives one record per index |
| Reader.ZipRowsAt | src/exc_2_6/reader.py:19-22 | the zipped record at index `k` takes index `k` of every column |
| Reader.ShiftedRow | src/exc_2_6/reader.py:13-21 | record `k` of a slice starting at `a` is record `a + k` of the store |
| Reader.SliceOfRectangular | src/exc_2_6/reader.py:12-23 | slicing equally long columns by a range of length other than one gives records `a` to `b - 1` of the store, in order |
| Reader.SliceOfRectangularSingle | src/exc_2_6/reader.py:13-15 | a slice of length one gives a dict of one-element column lists instead of records |
| Reader.FullColumn | src/exc_2_6/reader.py:53-59 | the column built from records that all have a name holds that name's values, in order |
| Reader.DataCollection.constructor | src/exc_2_6/reader.py:6-7 | one empty column per distinct header name, in header order |
| Reader.DataCollection.Length | src/exc_2_6/reader.py:9-10 | a store with no columns raises IndexError; otherwise the length is that of the first column (even when the columns differ in length), which is every column's when they are equally long |
| Reader.DataCollection.Append | src/exc_2_6/reader.py:25-27 | the columns become the grown columns up to the first unknown key; KeyError names that key |
| Reader.DataCollection.GetSlice | src/exc_2_6/reader.py:12-23 | a slice of the store is the slice view of its columns |
| Reader.ZipColumns | src/exc_2_6/reader.py:17-23 | the zip loop builds exactly one record per index up to the shortest column |
| Reader.ReadCsvAsColumns | src/exc_2_6/reader.py:45-61 | no header raises StopIteration; a failing row raises what decoding it raises; otherwise each column holds, in row order, the values of the records `read_csv_as_dicts` gives |
| Reader.ColumnsStep | src/exc_2_6/reader.py:53-59 | appending one more decoded record grows every column by that record's value |
| Reader.DecodedKeys | src/exc_2_6/reader.py:54-58 | a decoded record only has header names as keys |
| Reader.AppendRecord | src/exc_2_6/reader.py:59 | appending a record with every column's key extends each column of the earlier records by its value |
| Reader.ColumnsMatchDicts | src/exc_2_6/reader.py:30-61 | on the same rows, field `i` of a column from `read_csv_as_columns` equals that key of record `i` from `read_csv_as_dicts` |
| Reader.ColumnsOfComplete | src/exc_2_6/reader.py:45-61 | the columns of complete records are equally long, one per name, and give back every record |
| Reader.ColumnStoreSliceRoundTrip | src/exc_2_6/reader.py:12-23 | slicing the whole of a column store built from complete records, when there is not exactly one, gives the records back |
| ReadRides.DecodeRide | src/exc_2_1/readrides.py:61-64 | a row shorter than four fields raises IndexError; a non-integer ride count raises ValueError; otherwise route, date and day type are kept as text and the count is parsed |
| ReadRides.DecodeRideIgnoresExtra | src/exc_2_1/readrides.py:61-64 | fields past the fourth are ignored |
| ReadRides.RideRoundTrip | src/exc_2_1/readrides.py:61-64 | a row written from a ride decodes back to that ride |
| ReadRides.ReadRidesAsTuples | src/exc_2_1/readrides.py:53-67 | no header raises StopIteration; otherwise each remaining row is decoded, in order |
| ReadRides.Unzip | src/exc_2_1/readrides.py:191-204 | the four column lists have one entry per ride, and index `i` of each holds ride `i`'s field |
| ReadRides.UnzipSnoc | src/exc_2_1/readrides.py:199-203 | one more ride appends its fields to the four lists |
| ReadRides.ReadRidesAsColumns | src/exc_2_1/readrides.py:187-204 | the same failures as the tuple reader; otherwise the four lists are the columns of the tuples it reads |
| ReadRides.RideRecord | src/exc_2_1/readrides.py:37-42 | a ride record has exactly the keys route, date, daytype and rides |
| ReadRides.Reached | src/exc_2_1/readrides.py:46-50 | how far `append` gets through route, date, daytype and rides before a key is missing |
| ReadRides.RideRows | src/exc_2_1/readrides.py:33-44 | the rows of a slice: record `k` takes index `k` of the four lists |
| ReadRides.RideSliceRows | src/exc_2_1/readrides.py:20-44 | a slice of length other than one gives the zipped records of the sliced lists |
| ReadRides.RideSliceOfRectangular | src/exc_2_1/readrides.py:33-44 | for equally long lists, a slice of length other than one gives records `a` to `b - 1`, in order |
| ReadRides.RideSliceSingle | src/exc_2_1/readrides.py:26-32 | a slice of length one gives a dict of one-element lists |
| ReadRides.RideData.constructor | src/exc_2_1/readrides.py:11-15 | four empty lists |
| ReadRides.RideData.Length | src/exc_2_1/readrides.py:17-18 | the length is that of the routes list, which is every list's when they are equally long |
| ReadRides.RideData.Append | src/exc_2_1/readrides.py:46-50 | the fields are appended in route, date, daytype, rides order up to the first missing key, which raises KeyError; the lists stay equally long exactly when nothing or everything was appended |
| ReadRides.RideData.GetSlice | src/exc_2_1/readrides.py:20-44 | a slice of the store is the slice view of its four lists |
| ReadRides.ReadRidesAsDict | src/exc_2_1/readrides.py:70-89 | the same failures as the tuple reader; otherwise the store's four lists are the columns of the decoded rides |
| Stock.FromRowArgs | src/exc_1_5/stock.py:13-16 | `from_row` converts name, shares and price by position; a bad number raises ValueError with its text, first for shares, then for price; fewer than three fields raise TypeError |
| Stock.FromRowIgnoresExtra | src/exc_1_5/stock.py:13-16 | fields past the third are ignored |
| Stock.FromRowRoundTrip | src/exc_1_5/stock.py:13-16 | a row written from a name, a share count and a whole price reads back as those values |
| Stock.Subtract | src/exc_1_5/stock.py:46-47 | int minus int is an int, a float on either side gives a float, and a string raises TypeError |
| Stock.SubtractUndo | src/exc_1_5/stock.py:46-47 | selling an amount and then its negation restores the share count |
| Stock.Stock.constructor | src/exc_1_5/stock.py:8-11 | the arguments are stored as given, without the setters' checks |
| Stock.Stock.FromRow | src/exc_1_5/stock.py:13-16 | a fresh stock built from the converted fields, or the conversion's exception |
| Stock.Stock.SetShares | src/exc_1_5/stock.py:22-28 | a non-int raises TypeError and a negative int raises ValueError, both leaving the state unchanged; otherwise the shares are replaced; the checked state is preserved |
| Stock.Stock.SetPrice | src/exc_1_5/stock.py:34-40 | a non-float raises TypeError and a negative float raises ValueError, both leaving the state unchanged; otherwise the price is replaced; the checked state is preserved |
| Stock.Stock.Sell | src/exc_1_5/stock.py:46-47 | shares minus `n`, unchecked and possibly negative; a non-number raises TypeError and changes nothing |
| Stock.ReadPortfolio | src/exc_1_5/stock.py:50-60 | an object without `from_row` raises ValueError before reading; otherwise the header is skipped and `from_row` is called on each remaining row, in order |

## Left out

- File I/O and the `csv` tokeniser are not modelled. The readers receive the file's rows already split into fields, and an empty file is an empty row list (StopIteration on the header).
- `print` is modelled as lines appended to an output sequence. The `print("")` at the start of `read_rides_as_tuples` is not modelled.
- The `%` and f-string number formatting is not modelled. Table cells are strings (the `str` of each value), and `fmt % value` is a function supplied by the caller.
- TableFormat.FormatCells: a `%` format that rejects its value (for example `'%d' % 'GOOG'`, which raises TypeError) is not modelled. The caller-supplied `fmt % value` always returns a string. So the model never has `row`, and with it `print_table`, stop after the headings on a formatting error. Only a missing attribute or a missing formatter stops `print_table` here.
- Integer indexing in the two `__getitem__` methods is not modelled; only slices with step 1 are. The path `__getitem__` takes on an integer index depends on the length of one column value, not on the index.
- Conversions.ParseInt accepts only an optional sign followed by ASCII digits. Python's `int` also accepts surrounding whitespace, underscores between digits and non-ASCII Unicode decimal digits (`int("٣")` is 3).
- Conversions.ParseFloat accepts only an optional sign followed by digits with at most one point. Python's `float` also accepts surrounding whitespace (`" 490.1"`), underscores between digits, non-ASCII Unicode decimal digits, exponents, `inf` and `nan`.
- Python floats are modelled as exact reals, so rounding is not modelled.
- Strings.Upper changes only ASCII letters. Python's `str.upper` also maps non-ASCII letters.
- Exception messages: TypeError carries no message, and a conversion's ValueError carries the rejected text rather than Python's full wording.
- Stock.Stock.SetShares: booleans are not modelled; `Value` has no boolean. Python's setter accepts `True` and `False` as ints, because `isinstance(True, int)` holds.
- `Stock.cost`, `print_portfolio`, `pcost.py`, `art.py`, `__init__.py` and the `__main__` blocks are not part of this model.
- The class, named-tuple, slots and data-class variants of the ride reader (`readrides.py:92-184`) are not modelled. They run the same decoding into other record types.
- The classes that `create_formatter` builds at run time and their method resolution order are a `Formatter` datatype with one constructor per mixin layer.
- `print_table` reads record attributes as a map from attribute names to strings.
- A formatter that is not a `TableFormatter` is represented by `None`.
- A `None` value for `column_formats` is treated as an empty list; the factory treats both the same way.
- Slice results are maps, so the key order of the returned records and column dicts is not kept.
- Stock.Stock.FromRow: `from_row` is a class method of `Stock` only. The dynamic `cls` argument of `read_portfolio` and `read_csv_as_instances` is a row function passed in.
