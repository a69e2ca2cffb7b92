/** The readers and the column store of src/exc_2_6/reader.py. Rows come
    already split into fields; the first row is the header. */
module Reader {
  import opened Builtins
  import opened Conversions

  /** A record as the dict comprehension builds it: column name to value. */
  type Record = Dict<Value>

  /** How many fields `zip(header, column_types, row)` pairs up. */
  function Zipped(header: seq<string>, types: seq<Conversion>, row: seq<string>): nat
  {
    Min(|header|, Min(|types|, |row|))
  }

  /** `{name: func(val) for name, func, val in zip(header, column_types, row)}`:
      the first failing conversion raises; extra fields are dropped and
      missing ones are absent. */
  function DecodeRow(header: seq<string>, types: seq<Conversion>, row: seq<string>): (r: Result<Record>)
    ensures r.Ok? ==> WellFormed(r.value) && r.value.keys == Dedup(header[..Zipped(header, types, row)])
  {
    var n := Zipped(header, types, row);
    match ConvertAll(types[..n], row[..n])
    case Err(e) => Err(e)
    case Ok(vals) => Ok(DictOf(header[..n], vals))
  }

  /** A row decodes exactly when each of its paired fields converts; when
      one does not, the first that fails is the exception raised. */
  lemma DecodeRowResults(header: seq<string>, types: seq<Conversion>, row: seq<string>)
    ensures var n := Zipped(header, types, row);
            && (DecodeRow(header, types, row).Ok? <==> forall i :: 0 <= i < n ==> Convert(types[i], row[i]).Ok?)
            && (DecodeRow(header, types, row).Err? ==>
                  exists k :: 0 <= k < n && Convert(types[k], row[k]) == Err(DecodeRow(header, types, row).error) &&
                              forall j :: 0 <= j < k ==> Convert(types[j], row[j]).Ok?)
  {
    var n := Zipped(header, types, row);
    ConvertAllResults(types[..n], row[..n]);
    assert forall i :: 0 <= i < n ==> types[..n][i] == types[i] && row[..n][i] == row[i];
  }

  /** In a decoded record, a column maps to its own field converted by its
      own type (the last column of that name, when names repeat). */
  lemma DecodedField(header: seq<string>, types: seq<Conversion>, row: seq<string>, i: nat)
    requires DecodeRow(header, types, row).Ok?
    requires i < Zipped(header, types, row)
    requires header[i] !in header[i + 1..Zipped(header, types, row)]
    ensures header[i] in DecodeRow(header, types, row).value.vals
    ensures Convert(types[i], row[i]) == Ok(DecodeRow(header, types, row).value.vals[header[i]])
  {
    var n := Zipped(header, types, row);
    ConvertAllResults(types[..n], row[..n]);
    var vals := ConvertAll(types[..n], row[..n]).value;
    assert header[..n][i + 1..] == header[i + 1..n];
    DictOfLastWins(header[..n], vals, i);
    assert types[..n][i] == types[i] && row[..n][i] == row[i];
  }

  /** The per-row step of the readers, as a function of the row. */
  function Decoder(header: seq<string>, types: seq<Conversion>): seq<string> -> Result<Record>
  {
    row => DecodeRow(header, types, row)
  }

  /** `read_csv_as_dicts`: skip the header row, decode every other row. */
  method ReadCsvAsDicts(lines: seq<seq<string>>, types: seq<Conversion>) returns (r: Result<seq<Record>>)
    ensures lines == [] ==> r == Err(StopIteration)
    ensures lines != [] ==> r == MapRows(Decoder(lines[0], types), lines[1..])
  {
    if lines == [] {
      return Err(StopIteration);
    }
    r := Collect(Decoder(lines[0], types), lines[1..]);
  }

  /** `read_csv_as_instances`: skip the header row and call `cls.from_row` on
      every other row. `fromRow` is `None` for a class without `from_row`,
      which raises AttributeError at the first data row. */
  method ReadCsvAsInstances<T>(lines: seq<seq<string>>, fromRow: Option<seq<string> -> Result<T>>)
    returns (r: Result<seq<T>>)
    ensures lines == [] ==> r == Err(StopIteration)
    ensures |lines| == 1 ==> r == Ok([])
    ensures |lines| > 1 && fromRow.None? ==> r == Err(AttributeError("from_row"))
    ensures |lines| > 1 && fromRow.Some? ==> r == MapRows(fromRow.value, lines[1..])
  {
    if lines == [] {
      return Err(StopIteration);
    }
    if |lines| == 1 {
      return Ok([]);
    }
    if fromRow.None? {
      return Err(AttributeError("from_row"));
    }
    r := Collect(fromRow.value, lines[1..]);
  }

  /** All columns have the same length. */
  predicate Rectangular(columns: map<string, seq<Value>>)
  {
    forall c, d :: c in columns && d in columns ==> |columns[c]| == |columns[d]|
  }

  /** How many keys, from the first, name a column: `append` raises
      KeyError at the key after them, if there is one. */
  function KnownKeys(columns: map<string, seq<Value>>, keys: seq<string>): (k: nat)
    ensures k <= |keys|
    ensures forall j :: 0 <= j < k ==> keys[j] in columns
    ensures k < |keys| ==> keys[k] !in columns
  {
    if keys == [] || keys[0] !in columns then 0
    else
      var rest := KnownKeys(columns, keys[1..]);
      assert forall j :: 1 <= j < |keys| ==> keys[j] == keys[1..][j - 1];
      rest + 1
  }

  /** The columns once the values of the first `n` keys of `d` have each been
      appended to the column of their key. */
  function Grown(columns: map<string, seq<Value>>, d: Dict<Value>, n: nat): (r: map<string, seq<Value>>)
    requires WellFormed(d) && n <= |d.keys|
    ensures r.Keys == columns.Keys
  {
    map c | c in columns :: columns[c] + (if c in d.keys[..n] then [d.vals[c]] else [])
  }

  /** Before any key is handled the columns are as they were. */
  lemma GrownNone(columns: map<string, seq<Value>>, d: Dict<Value>)
    requires WellFormed(d)
    ensures Grown(columns, d, 0) == columns
  {
    var g := Grown(columns, d, 0);
    forall c | c in columns
      ensures g[c] == columns[c]
    {
      assert c !in d.keys[..0];
    }
  }

  /** Appending the value of one more key changes that key's column only. */
  lemma GrownStep(columns: map<string, seq<Value>>, d: Dict<Value>, n: nat)
    requires WellFormed(d) && n < |d.keys| && d.keys[n] in columns
    ensures Grown(columns, d, n + 1) ==
            Grown(columns, d, n)[d.keys[n] := Grown(columns, d, n)[d.keys[n]] + [d.vals[d.keys[n]]]]
  {
    var key := d.keys[n];
    var g, h := Grown(columns, d, n), Grown(columns, d, n + 1);
    assert d.keys[..n + 1] == d.keys[..n] + [key];
    assert key !in d.keys[..n];
    forall c | c in columns
      ensures h[c] == g[key := g[key] + [d.vals[key]]][c]
    {
      assert c in d.keys[..n + 1] <==> c in d.keys[..n] || c == key;
    }
  }

  /** The loop of `append` on the columns alone: each key's value goes to
      the end of its column until a key names no column. */
  method AppendColumns(columns: map<string, seq<Value>>, d: Dict<Value>)
    returns (grown: map<string, seq<Value>>, err: Option<Error>)
    requires WellFormed(d)
    ensures var k := KnownKeys(columns, d.keys);
            && grown == Grown(columns, d, k)
            && err == if k == |d.keys| then None else Some(KeyError(d.keys[k]))
  {
    ghost var k := KnownKeys(columns, d.keys);
    GrownNone(columns, d);
    grown := columns;
    var i := 0;
    while i < |d.keys|
      invariant i <= k
      invariant grown == Grown(columns, d, i)
    {
      var key := d.keys[i];
      if key !in columns {
        return grown, Some(KeyError(key));
      }
      assert i != k by { assert k < |d.keys| ==> d.keys[k] !in columns; }
      GrownStep(columns, d, i);
      grown := grown[key := grown[key] + [d.vals[key]]];
      i := i + 1;
    }
    err := None;
  }

  /** `append` with exactly the column names as keys adds each value to the
      end of its own column and keeps all columns the same length. */
  lemma AppendExactKeys(columns: map<string, seq<Value>>, d: Dict<Value>)
    requires WellFormed(d) && Rectangular(columns)
    requires forall k :: k in d.vals <==> k in columns
    ensures KnownKeys(columns, d.keys) == |d.keys|
    ensures forall c :: c in columns ==> Grown(columns, d, |d.keys|)[c] == columns[c] + [d.vals[c]]
    ensures Rectangular(Grown(columns, d, |d.keys|))
  {
    assert d.keys[..|d.keys|] == d.keys;
  }

  /** `append` is not atomic: at the first key that names no column it raises
      KeyError, and the columns of the keys before it have already grown. */
  lemma AppendUnknownKey(columns: map<string, seq<Value>>, d: Dict<Value>, k: nat)
    requires WellFormed(d) && k < |d.keys|
    requires forall j :: 0 <= j < k ==> d.keys[j] in columns
    requires d.keys[k] !in columns
    ensures KnownKeys(columns, d.keys) == k
    ensures forall j :: 0 <= j < k ==>
              Grown(columns, d, k)[d.keys[j]] == columns[d.keys[j]] + [d.vals[d.keys[j]]]
  {
    forall j | 0 <= j < k
      ensures d.keys[j] in d.keys[..k]
    {
      assert d.keys[..k][j] == d.keys[j];
    }
  }

  /** A key missing from `append`'s dict leaves its column one shorter than
      the columns that did receive a value. */
  lemma AppendMissingKey(columns: map<string, seq<Value>>, d: Dict<Value>, missing: string)
    requires WellFormed(d) && Rectangular(columns) && |d.keys| > 0
    requires forall k :: k in d.vals ==> k in columns
    requires missing in columns && missing !in d.vals
    ensures KnownKeys(columns, d.keys) == |d.keys|
    ensures |Grown(columns, d, |d.keys|)[missing]| + 1 == |Grown(columns, d, |d.keys|)[d.keys[0]]|
    ensures !Rectangular(Grown(columns, d, |d.keys|))
  {
    assert d.keys[..|d.keys|] == d.keys;
  }

  /** `self.columns[...][index]` for every column. */
  function SlicedColumns(columns: map<string, seq<Value>>, start: Option<int>, stop: Option<int>): (data: map<string, seq<Value>>)
    ensures data.Keys == columns.Keys
  {
    map c | c in columns :: Slice(columns[c], start, stop)
  }

  /** The length of the shortest of the named columns, where `zip` stops. */
  function MinLen(data: map<string, seq<Value>>, names: seq<string>): (m: nat)
    requires names != [] && forall c :: c in names ==> c in data
    ensures forall c :: c in names ==> m <= |data[c]|
    ensures exists c :: c in names && m == |data[c]|
  {
    if |names| == 1 then |data[names[0]]|
    else
      var rest := MinLen(data, names[1..]);
      assert forall c :: c in names ==> c == names[0] || c in names[1..];
      if |data[names[0]]| < rest then |data[names[0]]| else rest
  }

  /** `{name: val for name, val in zip(header, i)}` for the `k`-th tuple of
      `zip(*data.values())`. */
  function RowAt(data: map<string, seq<Value>>, names: seq<string>, k: nat): (record: map<string, Value>)
    requires forall c :: c in names ==> c in data && k < |data[c]|
  {
    map c | c in names :: data[c][k]
  }

  /** The first `m` records that the loop over `zip(*data.values())` builds. */
  function ZipRows(data: map<string, seq<Value>>, names: seq<string>, m: nat): (rows: seq<map<string, Value>>)
    requires forall c :: c in names ==> c in data && m <= |data[c]|
    ensures |rows| == m
  {
    if m == 0 then [] else ZipRows(data, names, m - 1) + [RowAt(data, names, m - 1)]
  }

  lemma {:induction false} ZipRowsAt(data: map<string, seq<Value>>, names: seq<string>, m: nat, k: nat)
    requires forall c :: c in names ==> c in data && m <= |data[c]|
    requires k < m
    ensures |ZipRows(data, names, m)| == m && ZipRows(data, names, m)[k] == RowAt(data, names, k)
  {
    if k < m - 1 {
      ZipRowsAt(data, names, m - 1, k);
    } else if m > 1 {
      ZipRowsAt(data, names, m - 1, 0);
    }
  }

  /** `__getitem__` of a `DataCollection` on a slice. With no columns it
      raises IndexError; when the sliced first column has one element the
      dict of sliced columns comes back; otherwise a list of records, as many
      as the shortest sliced column holds. */
  function SliceView(names: seq<string>, columns: map<string, seq<Value>>, start: Option<int>, stop: Option<int>): (r: Result<Sliced>)
    requires forall c :: c in names ==> c in columns
  {
    if names == [] then Err(IndexError)
    else
      var data := SlicedColumns(columns, start, stop);
      if |data[names[0]]| == 1 then Ok(ColumnsDict(data))
      else Ok(RecordList(ZipRows(data, names, MinLen(data, names))))
  }

  /** Slicing every column of a rectangular store in range cuts the same
      stretch out of each column. */
  lemma SlicedInRange(columns: map<string, seq<Value>>, a: nat, b: nat, len: nat)
    requires forall c :: c in columns ==> |columns[c]| == len
    requires a <= b <= len
    ensures forall c :: c in columns ==> SlicedColumns(columns, Some(a), Some(b))[c] == columns[c][a..b]
  {
    forall c | c in columns
      ensures SlicedColumns(columns, Some(a), Some(b))[c] == columns[c][a..b]
    {
      SliceInRange(columns[c], a, b);
    }
  }

  lemma ShiftedRow(data: map<string, seq<Value>>, columns: map<string, seq<Value>>, names: seq<string>, a: nat, b: nat, k: nat)
    requires forall c :: c in names ==> c in columns && c in data && a <= b <= |columns[c]| && data[c] == columns[c][a..b]
    requires k < b - a
    ensures RowAt(data, names, k) == RowAt(columns, names, a + k)
  {
    forall c | c in names
      ensures data[c][k] == columns[c][a + k]
    {
      assert data[c][k] == columns[c][a..b][k];
    }
  }

  /** On a store whose columns have equal length, the slice `[a:b]` of more
      or fewer than one element is a list of `b - a` records, record `k`
      mapping every column to its element at `a + k`. */
  lemma SliceOfRectangular(names: seq<string>, columns: map<string, seq<Value>>, a: nat, b: nat)
    requires names != [] && (forall c :: c in names <==> c in columns) && Rectangular(columns)
    requires a <= b <= |columns[names[0]]| && b - a != 1
    ensures var v := SliceView(names, columns, Some(a), Some(b));
            && v.Ok? && v.value.RecordList? && |v.value.records| == b - a
            && forall k :: 0 <= k < b - a ==> v.value.records[k] == RowAt(columns, names, a + k)
  {
    var data := SlicedColumns(columns, Some(a), Some(b));
    var len := |columns[names[0]]|;
    assert forall c :: c in columns ==> |columns[c]| == len;
    SlicedInRange(columns, a, b, len);
    assert MinLen(data, names) == b - a;
    var got := ZipRows(data, names, b - a);
    assert SliceView(names, columns, Some(a), Some(b)) == Ok(RecordList(got));
    forall k | 0 <= k < b - a
      ensures |got| == b - a && got[k] == RowAt(columns, names, a + k)
    {
      ZipRowsAt(data, names, b - a, k);
      ShiftedRow(data, columns, names, a, b, k);
    }
    if b == a {
      assert got == [];
    }
  }

  /** On a store whose columns have equal length, a slice of exactly one
      element is a dict of one-element lists instead. */
  lemma SliceOfRectangularSingle(names: seq<string>, columns: map<string, seq<Value>>, a: nat)
    requires names != [] && (forall c :: c in names <==> c in columns) && Rectangular(columns)
    requires a < |columns[names[0]]|
    ensures SliceView(names, columns, Some(a), Some(a + 1)) == Ok(ColumnsDict(map c | c in columns :: [columns[c][a]]))
  {
    var data := SlicedColumns(columns, Some(a), Some(a + 1));
    forall c | c in columns
      ensures data[c] == [columns[c][a]]
    {
      SliceInRange(columns[c], a, a + 1);
    }
    assert data == map c | c in columns :: [columns[c][a]];
  }

  /** The values of column `c` over the records that have it, in order: what
      `read_csv_as_columns` appends to that column. */
  function Column(records: seq<Record>, c: string): seq<Value>
  {
    if records == [] then []
    else
      var last := records[|records| - 1];
      Column(records[..|records| - 1], c) + (if c in last.vals then [last.vals[c]] else [])
  }

  /** A column that every record has holds one value per record, in order. */
  lemma {:induction false} FullColumn(records: seq<Record>, c: string)
    requires forall i :: 0 <= i < |records| ==> c in records[i].vals
    ensures |Column(records, c)| == |records|
    ensures forall i :: 0 <= i < |records| ==> Column(records, c)[i] == records[i].vals[c]
  {
    if records != [] {
      FullColumn(records[..|records| - 1], c);
    }
  }

  /** `DataCollection`: `self.columns`, a dict from column name to the list
      of that column's values. */
  class DataCollection {
    /** The keys of `self.columns`, in insertion order. */
    var names: seq<string>
    var columns: map<string, seq<Value>>

    ghost predicate Valid()
      reads this
    {
      Distinct(names) && forall c :: c in columns <==> c in names
    }

    /** One empty column per distinct name of the header, in header order. */
    constructor(header: seq<string>)
      ensures Valid() && names == Dedup(header)
      ensures forall c :: c in columns ==> columns[c] == []
    {
      names := Dedup(header);
      columns := map c | c in header :: [];
    }

    /** `len(self)`: the length of the first column; IndexError when there
        are no columns. */
    function Length(): (r: Result<nat>)
      reads this
      requires Valid()
      ensures r.Err? <==> names == []
      ensures r.Err? ==> r.error == IndexError
      ensures r.Ok? ==> r.value == |columns[names[0]]|
      ensures r.Ok? && Rectangular(columns) ==> forall c :: c in columns ==> |columns[c]| == r.value
    {
      if names == [] then Err(IndexError) else Ok(|columns[names[0]]|)
    }

    /** `append(values)`: for each key of the dict in turn, append its value
        to the column of that name; an unknown key raises KeyError and stops. */
    method Append(d: Dict<Value>) returns (err: Option<Error>)
      requires Valid() && WellFormed(d)
      modifies this
      ensures Valid() && names == old(names)
      ensures var k := KnownKeys(old(columns), d.keys);
              && columns == Grown(old(columns), d, k)
              && err == if k == |d.keys| then None else Some(KeyError(d.keys[k]))
    {
      columns, err := AppendColumns(columns, d);
    }

    /** `self[start:stop]`. */
    method GetSlice(start: Option<int>, stop: Option<int>) returns (r: Result<Sliced>)
      requires Valid()
      ensures r == SliceView(names, columns, start, stop)
    {
      if names == [] {
        return Err(IndexError);
      }
      var data := SlicedColumns(columns, start, stop);
      if |data[names[0]]| == 1 {
        return Ok(ColumnsDict(data));
      }
      var records := ZipColumns(data, names);
      r := Ok(RecordList(records));
    }
  }

  /** The loop of `__getitem__` over `zip(*data.values())`: one record per
      tuple, until the shortest named column runs out. */
  method ZipColumns(data: map<string, seq<Value>>, names: seq<string>) returns (records: seq<map<string, Value>>)
    requires names != [] && forall c :: c in names ==> c in data
    ensures records == ZipRows(data, names, MinLen(data, names))
  {
    records := [];
    var k := 0;
    while forall c | c in names :: k < |data[c]|
      invariant k <= MinLen(data, names)
      invariant records == ZipRows(data, names, k)
      decreases MinLen(data, names) - k
    {
      records := records + [RowAt(data, names, k)];
      k := k + 1;
    }
  }

  /** `read_csv_as_columns`: a `DataCollection` over the header row, with
      every other row decoded and appended in order. */
  method ReadCsvAsColumns(lines: seq<seq<string>>, types: seq<Conversion>) returns (r: Result<DataCollection>)
    ensures lines == [] ==> r == Err(StopIteration)
    ensures lines != [] && MapRows(Decoder(lines[0], types), lines[1..]).Err? ==>
              r == Err(MapRows(Decoder(lines[0], types), lines[1..]).error)
    ensures lines != [] && MapRows(Decoder(lines[0], types), lines[1..]).Ok? ==>
              r.Ok? && fresh(r.value) && r.value.Valid() && r.value.names == Dedup(lines[0]) &&
              forall c :: c in r.value.columns ==>
                r.value.columns[c] == Column(MapRows(Decoder(lines[0], types), lines[1..]).value, c)
  {
    if lines == [] {
      return Err(StopIteration);
    }
    var header := lines[0];
    var rows := lines[1..];
    var store := new DataCollection(header);
    var decode := Decoder(header, types);
    ghost var records: seq<Record> := [];
    var i := 0;
    while i < |rows|
      invariant 0 <= i <= |rows|
      invariant fresh(store) && store.Valid() && store.names == Dedup(header)
      invariant forall c :: c in store.columns <==> c in header
      invariant MapRows(decode, rows[..i]) == Ok(records)
      invariant forall c :: c in store.columns ==> store.columns[c] == Column(records, c)
    {
      match decode(rows[i])
      case Err(e) =>
        assert rows[..i + 1][..i] == rows[..i];
        MapRowsStopsAtFailure(decode, rows, i + 1);
        return Err(e);
      case Ok(record) =>
        assert record == DecodeRow(header, types, rows[i]).value;
        ColumnsStep(header, types, rows, i, records, store.columns);
        assert KnownKeys(store.columns, record.keys) == |record.keys|;
        var err := store.Append(record);
        assert err == None;
        records := records + [record];
      i := i + 1;
    }
    assert rows[..i] == rows;
    r := Ok(store);
  }

  /** One more decoded row: the reader loop's list grows by its record, and
      appending that record to the columns of the records before it gives
      the columns of the longer list. */
  lemma ColumnsStep(header: seq<string>, types: seq<Conversion>, rows: seq<seq<string>>, i: nat,
                    records: seq<Record>, columns: map<string, seq<Value>>)
    requires i < |rows| && MapRows(Decoder(header, types), rows[..i]) == Ok(records)
    requires DecodeRow(header, types, rows[i]).Ok?
    requires forall c :: c in columns <==> c in header
    requires forall c :: c in columns ==> columns[c] == Column(records, c)
    ensures var record := DecodeRow(header, types, rows[i]).value;
            && MapRows(Decoder(header, types), rows[..i + 1]) == Ok(records + [record])
            && KnownKeys(columns, record.keys) == |record.keys|
            && forall c :: c in columns ==> Grown(columns, record, |record.keys|)[c] == Column(records + [record], c)
  {
    var record := DecodeRow(header, types, rows[i]).value;
    var r := rows[..i + 1];
    assert r[..|r| - 1] == rows[..i];
    assert Decoder(header, types)(r[|r| - 1]) == Ok(record);
    DecodedKeys(header, types, rows[i]);
    AppendRecord(columns, records, record);
  }

  /** Every column of a decoded record is a column of the header. */
  lemma DecodedKeys(header: seq<string>, types: seq<Conversion>, row: seq<string>)
    requires DecodeRow(header, types, row).Ok?
    ensures forall k :: k in DecodeRow(header, types, row).value.vals ==> k in header
  {
    var n := Zipped(header, types, row);
    assert forall k :: k in header[..n] ==> k in header;
  }

  /** Appending one more record to a store whose columns are those of the
      records so far gives the columns of the longer list of records. */
  lemma AppendRecord(columns: map<string, seq<Value>>, records: seq<Record>, record: Record)
    requires WellFormed(record)
    requires forall k :: k in record.vals ==> k in columns
    requires forall c :: c in columns ==> columns[c] == Column(records, c)
    ensures KnownKeys(columns, record.keys) == |record.keys|
    ensures forall c :: c in columns ==> Grown(columns, record, |record.keys|)[c] == Column(records + [record], c)
  {
    assert record.keys[..|record.keys|] == record.keys;
    assert (records + [record])[..|records|] == records;
  }

  /** On rows at least as long as the header (and column types for every
      column), every decoded record has every column, so each column of the
      store holds one value per record and value `i` of column `c` is field
      `c` of record `i`: `read_csv_as_columns` and `read_csv_as_dicts` agree. */
  lemma ColumnsMatchDicts(header: seq<string>, types: seq<Conversion>, rows: seq<seq<string>>, c: string)
    requires |types| >= |header|
    requires forall i :: 0 <= i < |rows| ==> |rows[i]| >= |header|
    requires MapRows(Decoder(header, types), rows).Ok?
    requires c in header
    ensures var records := MapRows(Decoder(header, types), rows).value;
            |Column(records, c)| == |records| &&
            forall i :: 0 <= i < |records| ==> c in records[i].vals && Column(records, c)[i] == records[i].vals[c]
  {
    MapRowsResults(Decoder(header, types), rows);
    var records := MapRows(Decoder(header, types), rows).value;
    forall i | 0 <= i < |records|
      ensures c in records[i].vals
    {
      assert Decoder(header, types)(rows[i]) == Ok(records[i]);
      assert Zipped(header, types, rows[i]) == |header|;
      assert header[..|header|] == header;
    }
    FullColumn(records, c);
  }

  /** The columns a store holds after appending `records`. */
  function ColumnsOf(names: seq<string>, records: seq<Record>): map<string, seq<Value>>
  {
    map c | c in names :: Column(records, c)
  }

  /** Columns built from records that all have every column: one value per
      record in each, and row `k` across them is record `k` again. */
  lemma ColumnsOfComplete(names: seq<string>, records: seq<Record>)
    requires forall i, c :: 0 <= i < |records| ==> (c in records[i].vals <==> c in names)
    ensures forall c :: c in ColumnsOf(names, records) <==> c in names
    ensures forall c :: c in names ==> |ColumnsOf(names, records)[c]| == |records|
    ensures Rectangular(ColumnsOf(names, records))
    ensures forall k :: 0 <= k < |records| ==> RowAt(ColumnsOf(names, records), names, k) == records[k].vals
  {
    var columns := ColumnsOf(names, records);
    forall c | c in names
      ensures |columns[c]| == |records| && forall i :: 0 <= i < |records| ==> columns[c][i] == records[i].vals[c]
    {
      FullColumn(records, c);
    }
    forall k | 0 <= k < |records|
      ensures RowAt(columns, names, k) == records[k].vals
    {
    }
  }

  /** Slicing a column store of complete records over its whole length gives
      the records back, field for field, as a list. */
  lemma ColumnStoreSliceRoundTrip(names: seq<string>, records: seq<Record>)
    requires names != [] && |records| != 1
    requires forall i, c :: 0 <= i < |records| ==> (c in records[i].vals <==> c in names)
    ensures var v := SliceView(names, ColumnsOf(names, records), Some(0), Some(|records|));
            && v.Ok? && v.value.RecordList? && |v.value.records| == |records|
            && forall i :: 0 <= i < |records| ==> v.value.records[i] == records[i].vals
  {
    ColumnsOfComplete(names, records);
    SliceOfRectangular(names, ColumnsOf(names, records), 0, |records|);
  }


}
