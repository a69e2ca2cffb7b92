/** The table formatters of src/exc_3_2/tableformat.py: three output dialects,
    the two mixins that wrap them, the factory that stacks them, and
    `print_table`. Printing is modelled as appending lines to the output. */
module TableFormat {
  import opened Builtins
  import opened Strings

  /** A formatter object. The factory builds classes whose method resolution
      order puts each mixin in front of the class it extends; this datatype
      spells that order out as wrappers around one of the three dialects.
      `ColumnFormat(fs, inner)` is `ColumnFormatMixin` with `formats = fs`,
      `UpperHeaders(inner)` is `UpperHeadersMixin`. */
  datatype Formatter =
    | Text
    | Csv
    | Html
    | ColumnFormat(formats: seq<string>, inner: Formatter)
    | UpperHeaders(inner: Formatter)

  /** Python's `fmt % value` on one cell, supplied by the caller. */
  type Percent = (string, string) -> string

  /** The width of a text cell. */
  const Width: nat := 10

  /** One cell of the dashed line under text headings: `"-"*10 + " "`. */
  const RuleCell: string := "---------- "

  /** The dialect at the bottom of a stack of mixins. */
  function Base(f: Formatter): (b: Formatter)
    ensures b.Text? || b.Csv? || b.Html?
  {
    match f
    case ColumnFormat(_, inner) => Base(inner)
    case UpperHeaders(inner) => Base(inner)
    case _ => f
  }

  /** Every cell right-justified to the text width. */
  function Padded(cells: seq<string>): (r: seq<string>)
    ensures |r| == |cells|
  {
    seq(|cells|, i requires 0 <= i < |cells| => RJust(cells[i], Width))
  }

  /** Every item wrapped in `<tag>` and `</tag>`. */
  function Tagged(tag: string, items: seq<string>): (r: seq<string>)
    ensures |r| == |items|
  {
    seq(|items|, i requires 0 <= i < |items| => "<" + tag + ">" + items[i] + "</" + tag + ">")
  }

  /** One HTML table row: the row tags around the cells, joined by spaces. */
  function HtmlLine(tag: string, items: seq<string>): string
  {
    Join(" ", ["<tr>"] + Tagged(tag, items) + ["</tr>"])
  }

  function UpperAll(headers: seq<string>): (r: seq<string>)
    ensures |r| == |headers|
  {
    seq(|headers|, i requires 0 <= i < |headers| => Upper(headers[i]))
  }

  /** The lines that `headings(headers)` prints: two for the text dialect
      (the headings and the dashed rule), one otherwise. */
  function Headings(f: Formatter, headers: seq<string>): (lines: seq<string>)
    ensures |lines| == if Base(f) == Text then 2 else 1
  {
    match f
    case Text => [Join(" ", Padded(headers)), Repeat(RuleCell, |headers|)]
    case Csv => [Join(",", headers)]
    case Html => [HtmlLine("th", headers)]
    case ColumnFormat(_, inner) => Headings(inner, headers)
    case UpperHeaders(inner) => Headings(inner, UpperAll(headers))
  }

  /** `[(fmt % d) for fmt, d in zip(formats, rowdata)]`. */
  function FormatCells(formats: seq<string>, cells: seq<string>, percent: Percent): (r: seq<string>)
    ensures |r| == Min(|formats|, |cells|)
    ensures forall i :: 0 <= i < |r| ==> r[i] == percent(formats[i], cells[i])
  {
    seq(Min(|formats|, |cells|), i requires 0 <= i < Min(|formats|, |cells|) => percent(formats[i], cells[i]))
  }

  /** The line that `row(rowdata)` prints. */
  function Row(f: Formatter, percent: Percent, cells: seq<string>): (lines: seq<string>)
    ensures |lines| == 1
  {
    match f
    case Text => [Join(" ", Padded(cells))]
    case Csv => [Join(",", cells)]
    case Html => [HtmlLine("td", cells)]
    case ColumnFormat(formats, inner) => Row(inner, percent, FormatCells(formats, cells, percent))
    case UpperHeaders(inner) => Row(inner, percent, cells)
  }

  /** Cell `i` of the rule is `RuleCell` itself: ten dashes and a space. */
  lemma {:induction false} RuleCells(n: nat)
    ensures |Repeat(RuleCell, n)| == 11 * n
    ensures forall i :: 0 <= i < n ==>
              Repeat(RuleCell, n)[11 * i..11 * i + 10] == "----------" && Repeat(RuleCell, n)[11 * i + 10] == ' '
  {
    if n > 0 {
      RuleCells(n - 1);
      var r := Repeat(RuleCell, n);
      var rest := Repeat(RuleCell, n - 1);
      assert r == RuleCell + rest;
      forall i | 1 <= i < n
        ensures r[11 * i..11 * i + 10] == "----------" && r[11 * i + 10] == ' '
      {
        assert r[11 * i..11 * i + 10] == rest[11 * (i - 1)..11 * (i - 1) + 10];
        assert r[11 * i + 10] == rest[11 * (i - 1) + 10];
      }
    }
  }

  /** Values no wider than the text width take exactly `Width` characters
      each once padded, so the padded cells total `Width` per cell. */
  lemma PaddedLength(cells: seq<string>)
    requires forall i :: 0 <= i < |cells| ==> |cells[i]| <= Width
    ensures forall i :: 0 <= i < |cells| ==> |Padded(cells)[i]| == Width
    ensures TotalLength(Padded(cells)) == Width * |cells|
  {
    var p := Padded(cells);
    forall i | 0 <= i < |p|
      ensures |p[i]| == Width
    {
      assert p[i] == RJust(cells[i], Width);
    }
    TotalOfEqual(p, Width);
  }

  /** Parts of equal length `w` total `w` per part. */
  lemma {:induction false} TotalOfEqual(parts: seq<string>, w: nat)
    requires forall i :: 0 <= i < |parts| ==> |parts[i]| == w
    ensures TotalLength(parts) == w * |parts|
  {
    if parts != [] {
      TotalOfEqual(parts[1..], w);
    }
  }

  /** Ten-character cells joined by spaces: cell `i` occupies characters
      `11 * i` to `11 * i + 9`, and a space follows every cell but the last. */
  lemma {:induction false} JoinedCells(parts: seq<string>)
    requires |parts| > 0
    requires forall i :: 0 <= i < |parts| ==> |parts[i]| == Width
    ensures |Join(" ", parts)| == 11 * |parts| - 1
    ensures forall i :: 0 <= i < |parts| ==> Join(" ", parts)[11 * i..11 * i + 10] == parts[i]
    ensures forall i :: 0 <= i < |parts| - 1 ==> Join(" ", parts)[11 * i + 10] == ' '
  {
    if |parts| > 1 {
      var rest := parts[1..];
      JoinedCells(rest);
      var j := Join(" ", parts);
      assert j == parts[0] + " " + Join(" ", rest);
      forall i | 1 <= i < |parts|
        ensures j[11 * i..11 * i + 10] == parts[i]
      {
        assert j[11 * i..11 * i + 10] == Join(" ", rest)[11 * (i - 1)..11 * (i - 1) + 10];
        assert rest[i - 1] == parts[i];
      }
      forall i | 1 <= i < |parts| - 1
        ensures j[11 * i + 10] == ' '
      {
        assert j[11 * i + 10] == Join(" ", rest)[11 * (i - 1) + 10];
      }
    }
  }

  /** A text line of values no wider than ten: value `i`, right-justified,
      at characters `11 * i` to `11 * i + 9`, and a space after each value
      but the last. */
  lemma TextLine(cells: seq<string>)
    requires |cells| > 0
    requires forall i :: 0 <= i < |cells| ==> |cells[i]| <= Width
    ensures |Join(" ", Padded(cells))| == 11 * |cells| - 1
    ensures forall i :: 0 <= i < |cells| ==> Join(" ", Padded(cells))[11 * i..11 * i + 10] == RJust(cells[i], Width)
    ensures forall i :: 0 <= i < |cells| - 1 ==> Join(" ", Padded(cells))[11 * i + 10] == ' '
  {
    var p := Padded(cells);
    JoinedCells(p);
    forall i | 0 <= i < |cells|
      ensures Join(" ", p)[11 * i..11 * i + 10] == RJust(cells[i], Width)
    {
      assert p[i] == RJust(cells[i], Width);
    }
  }

  /** Text output lines up: when no header and no value is wider than ten
      characters, header `i`, value `i` and the dashes of the rule all sit at
      characters `11 * i` to `11 * i + 9`, right-justified, with a space at
      `11 * i + 10` between columns; the heading line and every row are
      `11 * n - 1` characters long, and the rule, with its trailing space,
      one more. */
  lemma TextColumnsAlign(headers: seq<string>, cells: seq<string>, percent: Percent)
    requires |headers| > 0
    requires forall i :: 0 <= i < |headers| ==> |headers[i]| <= Width
    requires forall i :: 0 <= i < |cells| ==> |cells[i]| <= Width
    requires |cells| == |headers|
    ensures |Headings(Text, headers)[0]| == 11 * |headers| - 1
    ensures |Row(Text, percent, cells)[0]| == 11 * |headers| - 1
    ensures |Headings(Text, headers)[1]| == 11 * |headers|
    ensures forall i :: 0 <= i < |headers| ==>
              && Headings(Text, headers)[0][11 * i..11 * i + 10] == RJust(headers[i], Width)
              && Row(Text, percent, cells)[0][11 * i..11 * i + 10] == RJust(cells[i], Width)
              && Headings(Text, headers)[1][11 * i..11 * i + 10] == "----------"
    ensures forall i :: 0 <= i < |headers| - 1 ==>
              && Headings(Text, headers)[0][11 * i + 10] == ' '
              && Row(Text, percent, cells)[0][11 * i + 10] == ' '
              && Headings(Text, headers)[1][11 * i + 10] == ' '
  {
    assert Headings(Text, headers) == [Join(" ", Padded(headers)), Repeat(RuleCell, |headers|)];
    assert Row(Text, percent, cells) == [Join(" ", Padded(cells))];
    TextLine(headers);
    TextLine(cells);
    RuleCells(|headers|);
  }

  /** A text cell holds the whole value, right-justified: it is never cut. */
  lemma TextCellsKeepValues(headers: seq<string>, i: nat)
    requires i < |headers|
    ensures var cell := Padded(headers)[i];
            |cell| >= Width && cell[|cell| - |headers[i]|..] == headers[i]
  {
  }

  /** The CSV heading line and a CSV row split back on commas into the
      headers and the values, when none of them holds a comma. */
  lemma CsvRoundTrip(headers: seq<string>, cells: seq<string>, percent: Percent)
    requires |headers| > 0 && |cells| > 0
    requires forall i :: 0 <= i < |headers| ==> ',' !in headers[i]
    requires forall i :: 0 <= i < |cells| ==> ',' !in cells[i]
    ensures Split(Headings(Csv, headers)[0], ',') == headers
    ensures Split(Row(Csv, percent, cells)[0], ',') == cells
  {
    SplitJoin(headers, ',');
    SplitJoin(cells, ',');
  }

  /** An HTML line is `<tr>`, one `<th>` cell per header (or `<td>` cell per
      value) and `</tr>`, separated by single spaces: splitting it on spaces
      gives these pieces back when no header or value holds a space. */
  lemma HtmlLayout(headers: seq<string>, cells: seq<string>, percent: Percent)
    requires forall i :: 0 <= i < |headers| ==> ' ' !in headers[i]
    requires forall i :: 0 <= i < |cells| ==> ' ' !in cells[i]
    ensures Split(Headings(Html, headers)[0], ' ') == ["<tr>"] + Tagged("th", headers) + ["</tr>"]
    ensures Split(Row(Html, percent, cells)[0], ' ') == ["<tr>"] + Tagged("td", cells) + ["</tr>"]
  {
    HtmlSplit("th", headers);
    HtmlSplit("td", cells);
  }

  lemma HtmlSplit(tag: string, items: seq<string>)
    requires ' ' !in tag
    requires forall i :: 0 <= i < |items| ==> ' ' !in items[i]
    ensures Split(HtmlLine(tag, items), ' ') == ["<tr>"] + Tagged(tag, items) + ["</tr>"]
  {
    var parts := ["<tr>"] + Tagged(tag, items) + ["</tr>"];
    forall i | 0 <= i < |parts|
      ensures ' ' !in parts[i]
    {
      if 0 < i < |parts| - 1 {
        assert parts[i] == "<" + tag + ">" + items[i - 1] + "</" + tag + ">";
      }
    }
    SplitJoin(parts, ' ');
  }

  /** The formatter with every `UpperHeaders` layer taken out. */
  function StripUpper(f: Formatter): (g: Formatter)
    ensures Base(g) == Base(f)
  {
    match f
    case ColumnFormat(fs, inner) => ColumnFormat(fs, StripUpper(inner))
    case UpperHeaders(inner) => StripUpper(inner)
    case _ => f
  }

  predicate HasUpper(f: Formatter)
  {
    match f
    case ColumnFormat(_, inner) => HasUpper(inner)
    case UpperHeaders(_) => true
    case _ => false
  }

  predicate HasColumnFormat(f: Formatter)
  {
    match f
    case ColumnFormat(_, _) => true
    case UpperHeaders(inner) => HasColumnFormat(inner)
    case _ => false
  }

  lemma UpperAllIdempotent(headers: seq<string>)
    ensures UpperAll(UpperAll(headers)) == UpperAll(headers)
  {
    forall i | 0 <= i < |headers|
      ensures Upper(Upper(headers[i])) == Upper(headers[i])
    {
      UpperIdempotent(headers[i]);
    }
  }

  /** Upper-case headings never change a row: in any stack of mixins, rows
      come out as if every `UpperHeaders` layer were absent. */
  lemma {:induction false} RowIgnoresUpper(f: Formatter, percent: Percent, cells: seq<string>)
    ensures Row(f, percent, cells) == Row(StripUpper(f), percent, cells)
  {
    match f
    case ColumnFormat(fs, inner) => RowIgnoresUpper(inner, percent, FormatCells(fs, cells, percent));
    case UpperHeaders(inner) => RowIgnoresUpper(inner, percent, cells);
    case _ =>
  }

  /** Headings through any stack of mixins are the base dialect's headings
      of the upper-cased headers when the stack has an `UpperHeaders` layer
      (one or several, which is the same), and of the headers as given when
      it has none. */
  lemma {:induction false} HeadingsThroughMixins(f: Formatter, headers: seq<string>)
    ensures Headings(f, headers) == Headings(Base(f), if HasUpper(f) then UpperAll(headers) else headers)
  {
    match f
    case ColumnFormat(fs, inner) => HeadingsThroughMixins(inner, headers);
    case UpperHeaders(inner) =>
      HeadingsThroughMixins(inner, UpperAll(headers));
      UpperAllIdempotent(headers);
    case _ =>
  }

  /** The two mixins act on disjoint parts of the output, so their order in
      the stack does not matter. */
  lemma MixinsCommute(fs: seq<string>, f: Formatter, headers: seq<string>, percent: Percent, cells: seq<string>)
    ensures Headings(UpperHeaders(ColumnFormat(fs, f)), headers) == Headings(ColumnFormat(fs, UpperHeaders(f)), headers)
    ensures Row(UpperHeaders(ColumnFormat(fs, f)), percent, cells) == Row(ColumnFormat(fs, UpperHeaders(f)), percent, cells)
  {
  }

  /** With column formats over CSV, a row has one field per pair of
      `zip(formats, rowdata)`: values past the last format are dropped. */
  lemma ColumnFormatTruncates(fs: seq<string>, percent: Percent, cells: seq<string>)
    requires Min(|fs|, |cells|) > 0
    requires forall i :: 0 <= i < |fs| && i < |cells| ==> ',' !in percent(fs[i], cells[i])
    ensures |Split(Row(ColumnFormat(fs, Csv), percent, cells)[0], ',')| == Min(|fs|, |cells|)
  {
    SplitJoin(FormatCells(fs, cells, percent), ',');
  }

  /** `create_formatter(format, column_formats, upper_headers)`: the dialect
      chosen by name, wrapped in column formats when the list is not empty,
      then in upper-case headings, outermost, when the flag is set. An empty
      list and `None` behave alike, so the list stands for both. */
  function CreateFormatter(name: string, columnFormats: seq<string>, upperHeaders: bool): (r: Result<Formatter>)
    ensures r.Err? <==> name != "text" && name != "csv" && name != "html"
    ensures r.Err? ==> r.error == ValueError("Wrong format selected")
    ensures r.Ok? ==> Base(r.value) == (if name == "text" then Text else if name == "csv" then Csv else Html)
    ensures r.Ok? ==> (r.value.UpperHeaders? <==> upperHeaders) && (HasUpper(r.value) <==> upperHeaders)
    ensures r.Ok? ==> (HasColumnFormat(r.value) <==> columnFormats != [])
  {
    var base :=
      if name == "text" then Some(Text)
      else if name == "csv" then Some(Csv)
      else if name == "html" then Some(Html)
      else None;
    match base
    case None => Err(ValueError("Wrong format selected"))
    case Some(b) =>
      var withFormats := if columnFormats != [] then ColumnFormat(columnFormats, b) else b;
      var f := if upperHeaders then UpperHeaders(withFormats) else withFormats;
      assert Base(withFormats) == b && Base(f) == b;
      Ok(f)
  }

  /** What a formatter from the factory prints: the chosen dialect's headings
      of the (upper-cased, when asked) headers, and its rows of the
      formatted values (when formats were given). */
  lemma CreatedFormatterOutput(name: string, columnFormats: seq<string>, upperHeaders: bool,
                               headers: seq<string>, percent: Percent, cells: seq<string>)
    requires CreateFormatter(name, columnFormats, upperHeaders).Ok?
    ensures var f := CreateFormatter(name, columnFormats, upperHeaders).value;
            Headings(f, headers) == Headings(Base(f), if upperHeaders then UpperAll(headers) else headers) &&
            Row(f, percent, cells) ==
              Row(Base(f), percent, if columnFormats == [] then cells else FormatCells(columnFormats, cells, percent))
  {
    var f := CreateFormatter(name, columnFormats, upperHeaders).value;
    HeadingsThroughMixins(f, headers);
    RowIgnoresUpper(f, percent, cells);
  }

  /** `[getattr(record, col) for col in attrs]`, a record being a map from
      attribute name to value; the first missing attribute raises. */
  function Project(record: map<string, string>, attrs: seq<string>): Result<seq<string>>
  {
    if attrs == [] then Ok([])
    else if attrs[0] !in record then Err(AttributeError(attrs[0]))
    else
      match Project(record, attrs[1..])
      case Err(e) => Err(e)
      case Ok(vs) => Ok([record[attrs[0]]] + vs)
  }

  /** A record's row holds its attributes in `attrs` order when it has them
      all; otherwise the first missing attribute is the one reported. */
  lemma {:induction false} ProjectFields(record: map<string, string>, attrs: seq<string>)
    ensures Project(record, attrs).Ok? <==> forall i :: 0 <= i < |attrs| ==> attrs[i] in record
    ensures Project(record, attrs).Ok? ==>
              |Project(record, attrs).value| == |attrs| &&
              forall i :: 0 <= i < |attrs| ==> Project(record, attrs).value[i] == record[attrs[i]]
    ensures Project(record, attrs).Err? ==>
              exists k :: 0 <= k < |attrs| && attrs[k] !in record && Project(record, attrs).error == AttributeError(attrs[k]) &&
                          forall j :: 0 <= j < k ==> attrs[j] in record
  {
    if attrs != [] && attrs[0] in record {
      ProjectFields(record, attrs[1..]);
      assert forall i :: 1 <= i < |attrs| ==> attrs[i] == attrs[1..][i - 1];
      if Project(record, attrs[1..]).Err? {
        var e := Project(record, attrs[1..]).error;
        var k :| 0 <= k < |attrs| - 1 && attrs[1..][k] !in record && e == AttributeError(attrs[1..][k]) &&
                 forall j :: 0 <= j < k ==> attrs[1..][j] in record;
        assert attrs[k + 1] !in record && forall j :: 0 <= j < k + 1 ==> attrs[j] in record;
      }
    }
  }

  /** How many records, from the first, have every attribute in `attrs`:
      `print_table` raises at the record after them, if there is one. */
  function Printable(data: seq<map<string, string>>, attrs: seq<string>): (k: nat)
    ensures k <= |data|
    ensures forall i :: 0 <= i < k ==> Project(data[i], attrs).Ok?
    ensures k < |data| ==> Project(data[k], attrs).Err?
  {
    if data == [] || Project(data[0], attrs).Err? then 0
    else
      var rest := Printable(data[1..], attrs);
      assert forall i :: 1 <= i < rest + 1 ==> data[i] == data[1..][i - 1];
      rest + 1
  }

  /** `formatter.row` as the function `print_table` calls on each record's
      cells. */
  function RowOf(f: Formatter, percent: Percent): seq<string> -> seq<string>
  {
    cells => Row(f, percent, cells)
  }

  /** What `row` prints for the first `n` records, when they all have every
      attribute, in data order. */
  function RowLines(row: seq<string> -> seq<string>, data: seq<map<string, string>>, attrs: seq<string>, n: nat)
    : seq<string>
    requires n <= Printable(data, attrs)
  {
    if n == 0 then []
    else RowLines(row, data, attrs, n - 1) + row(Project(data[n - 1], attrs).value)
  }

  /** With a formatter's `row`, the first `n` records give one line each. */
  lemma {:induction false} RowLinesLength(f: Formatter, percent: Percent, data: seq<map<string, string>>, attrs: seq<string>,
                                          n: nat)
    requires n <= Printable(data, attrs)
    ensures |RowLines(RowOf(f, percent), data, attrs, n)| == n
  {
    RowLinesOfLines(RowOf(f, percent), data, attrs, n, 0);
  }

  /** Line `i` of those is the row of record `i`, made of its attributes in
      `attrs` order. */
  lemma RowLinesAt(f: Formatter, percent: Percent, data: seq<map<string, string>>, attrs: seq<string>,
                   n: nat, i: nat)
    requires n <= Printable(data, attrs) && i < n
    ensures |RowLines(RowOf(f, percent), data, attrs, n)| == n
    ensures RowLines(RowOf(f, percent), data, attrs, n)[i] == Row(f, percent, Project(data[i], attrs).value)[0]
  {
    RowLinesOfLines(RowOf(f, percent), data, attrs, n, i);
  }

  /** For any `row` that prints one line per call, the first `n` records
      give `n` lines, line `i` being the one of record `i`. */
  lemma {:induction false} RowLinesOfLines(row: seq<string> -> seq<string>, data: seq<map<string, string>>,
                                           attrs: seq<string>, n: nat, i: nat)
    requires n <= Printable(data, attrs)
    requires forall cells :: |row(cells)| == 1
    ensures |RowLines(row, data, attrs, n)| == n
    ensures i < n ==> RowLines(row, data, attrs, n)[i] == row(Project(data[i], attrs).value)[0]
  {
    if n > 0 {
      var prev := RowLines(row, data, attrs, n - 1);
      var last := row(Project(data[n - 1], attrs).value);
      assert RowLines(row, data, attrs, n) == prev + last;
      RowLinesOfLines(row, data, attrs, n - 1, i);
      if i < n - 1 {
        assert (prev + last)[i] == prev[i];
      }
    }
  }

  /** A record that has every attribute, right after records that all do,
      adds its row to the lines before it. */
  lemma RowLinesStep(row: seq<string> -> seq<string>, data: seq<map<string, string>>, attrs: seq<string>, i: nat)
    requires i < |data| && i <= Printable(data, attrs) && Project(data[i], attrs).Ok?
    ensures i < Printable(data, attrs)
    ensures RowLines(row, data, attrs, i + 1) == RowLines(row, data, attrs, i) + row(Project(data[i], attrs).value)
  {
  }

  /** The first record that lacks an attribute is where the printable
      records end. */
  lemma PrintableStops(data: seq<map<string, string>>, attrs: seq<string>, i: nat)
    requires i < |data| && i <= Printable(data, attrs) && Project(data[i], attrs).Err?
    ensures Printable(data, attrs) == i
  {
  }

  /** `print_table(data, attrs, formatter)`, appending to `out` what it
      prints. `formatter` is `None` for an object that is not a table
      formatter, which raises TypeError before anything is printed.
      Otherwise the headings line(s) come first, then one row line per
      record up to the first record that lacks an attribute, which raises
      AttributeError. */
  method PrintTable(data: seq<map<string, string>>, attrs: seq<string>, formatter: Option<Formatter>,
                    percent: Percent, out: seq<string>)
    returns (out': seq<string>, err: Option<Error>)
    ensures formatter.None? ==> out' == out && err == Some(TypeError)
    ensures formatter.Some? ==>
              var k := Printable(data, attrs);
              && out' == out + Headings(formatter.value, attrs) + RowLines(RowOf(formatter.value, percent), data, attrs, k)
              && err == if k == |data| then None else Some(Project(data[k], attrs).error)
  {
    if formatter.None? {
      return out, Some(TypeError);
    }
    out', err := PrintRows(RowOf(formatter.value, percent), data, attrs, out + Headings(formatter.value, attrs));
  }

  /** The loop of `print_table` over the records: `row` is called on the
      cells of each record in turn, stopping with AttributeError at the first
      record that lacks an attribute. */
  method PrintRows(row: seq<string> -> seq<string>, data: seq<map<string, string>>, attrs: seq<string>, out: seq<string>)
    returns (out': seq<string>, err: Option<Error>)
    ensures var k := Printable(data, attrs);
            && out' == out + RowLines(row, data, attrs, k)
            && err == if k == |data| then None else Some(Project(data[k], attrs).error)
  {
    out' := out;
    ghost var k := Printable(data, attrs);
    var i := 0;
    while i < |data|
      invariant 0 <= i <= k
      invariant out' == out + RowLines(row, data, attrs, i)
    {
      var cells := Project(data[i], attrs);
      if cells.Err? {
        PrintableStops(data, attrs, i);
        return out', Some(cells.error);
      }
      RowLinesStep(row, data, attrs, i);
      out' := out' + row(cells.value);
      i := i + 1;
    }
    err := None;
  }
}
