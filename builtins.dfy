/** Python values, exceptions, dicts and slices as the record stores, the
    readers and the formatters use them. */
module Builtins {

  /** A value produced by one of the conversions `str`, `int` or `float`.
      Python floats are modelled as reals. */
  datatype Value = StrV(text: string) | IntV(n: int) | FloatV(x: real)

  /** The exceptions the modelled code raises. */
  datatype Error =
    | KeyError(key: string)
    | IndexError
    | ValueError(message: string)
    | TypeError
    | AttributeError(name: string)
    | StopIteration

  datatype Option<T> = None | Some(value: T)

  /** A Python call either returns a value or raises. */
  datatype Result<T> = Ok(value: T) | Err(error: Error)

  function Min(a: int, b: int): int { if a < b then a else b }

  predicate Distinct<T(==)>(s: seq<T>) {
    forall i, j :: 0 <= i < j < |s| ==> s[i] != s[j]
  }

  /** The position of the first occurrence of `x` in `s`. */
  function FirstIndex<T(==)>(s: seq<T>, x: T): (i: nat)
    requires x in s
    ensures i < |s| && s[i] == x && x !in s[..i]
  {
    if s[0] == x then 0 else FirstIndex(s[1..], x) + 1
  }

  /** The elements of `s` in the order of their first occurrence: the keys of
      a dict built from `s` one key at a time. */
  function Dedup<T(==,!new)>(s: seq<T>): (r: seq<T>)
    ensures Distinct(r)
    ensures forall x :: x in r <==> x in s
    ensures Distinct(s) ==> r == s
  {
    if s == [] then []
    else
      var init := s[..|s| - 1];
      var d := Dedup(init);
      assert s == init + [s[|s| - 1]];
      if s[|s| - 1] in d then d else d + [s[|s| - 1]]
  }

  /** Dedup keeps the elements in the order in which they first appear. */
  lemma {:induction false} DedupOrder<T(!new)>(s: seq<T>, i: nat, j: nat)
    requires i < j < |Dedup(s)|
    ensures FirstIndex(s, Dedup(s)[i]) < FirstIndex(s, Dedup(s)[j])
  {
    var init := s[..|s| - 1];
    var last := s[|s| - 1];
    assert s == init + [last];
    var d := Dedup(init);
    forall x | x in init
      ensures FirstIndex(s, x) == FirstIndex(init, x)
    {
      FirstIndexOfPrefix(init, [last], x);
    }
    if last in d {
      DedupOrder(init, i, j);
    } else if j < |d| {
      DedupOrder(init, i, j);
    } else {
      assert Dedup(s)[j] == last && last !in init;
      FirstIndexOfPrefix(init, [last], d[i]);
    }
  }

  lemma {:induction false} FirstIndexOfPrefix<T>(a: seq<T>, b: seq<T>, x: T)
    requires x in a
    ensures FirstIndex(a + b, x) == FirstIndex(a, x)
  {
    if a[0] != x {
      assert (a + b)[1..] == a[1..] + b;
      FirstIndexOfPrefix(a[1..], b, x);
    }
  }

  /** A Python dict with string keys: the keys in insertion order and the
      mapping itself. */
  datatype Dict<V> = Dict(keys: seq<string>, vals: map<string, V>)

  /** Every dict lists each of its keys exactly once. */
  ghost predicate WellFormed<V>(d: Dict<V>) {
    Distinct(d.keys) && forall k :: k in d.vals <==> k in d.keys
  }

  /** `d[k] = v`: a new key goes to the end, an existing key keeps its place. */
  function Insert<V>(d: Dict<V>, k: string, v: V): (r: Dict<V>)
    requires WellFormed(d)
    ensures WellFormed(r)
  {
    Dict(if k in d.vals then d.keys else d.keys + [k], d.vals[k := v])
  }

  /** The dict comprehension `{k: v for k, v in zip(keys, vals)}`: a repeated
      key keeps its first place and its last value. */
  function DictOf<V>(keys: seq<string>, vals: seq<V>): (r: Dict<V>)
    requires |keys| == |vals|
    ensures WellFormed(r)
    ensures r.keys == Dedup(keys)
  {
    if keys == [] then Dict([], map[])
    else
      var n := |keys| - 1;
      Insert(DictOf(keys[..n], vals[..n]), keys[n], vals[n])
  }

  /** In `DictOf`, the value of a key is the one paired with its last occurrence. */
  lemma {:induction false} DictOfLastWins<V>(keys: seq<string>, vals: seq<V>, i: nat)
    requires |keys| == |vals| && i < |keys| && keys[i] !in keys[i + 1..]
    ensures keys[i] in DictOf(keys, vals).vals && DictOf(keys, vals).vals[keys[i]] == vals[i]
  {
    var n := |keys| - 1;
    if i < n {
      assert keys[i] != keys[n] by { assert keys[i + 1..][n - i - 1] == keys[n]; }
      assert keys[..n][i + 1..] == keys[i + 1..n];
      DictOfLastWins(keys[..n], vals[..n], i);
    }
  }

  /** What `__getitem__` of a record store returns for a slice: a dict of
      column lists when the sliced first column has exactly one element, a
      list of records otherwise. */
  datatype Sliced =
    | ColumnsDict(columns: map<string, seq<Value>>)
    | RecordList(records: seq<map<string, Value>>)

  /** One bound of a Python slice, normalised for a sequence of length `n`:
      a negative bound counts from the end, and the result is clamped to
      `[0, n]`; an omitted bound is `dflt`. */
  function SliceBound(bound: Option<int>, n: nat, dflt: nat): (b: nat)
    requires dflt <= n
    ensures b <= n
  {
    match bound
    case None => dflt
    case Some(i) =>
      if i < 0 then (if i + n < 0 then 0 else i + n)
      else if i > n then n
      else i
  }

  /** `s[start:stop]` with Python's slice rules (step 1). */
  function Slice<T>(s: seq<T>, start: Option<int>, stop: Option<int>): seq<T>
  {
    var a := SliceBound(start, |s|, 0);
    var b := SliceBound(stop, |s|, |s|);
    if a <= b then s[a..b] else []
  }

  /** A slice is a run of consecutive elements of `s` from the normalised
      start, and never longer than what is left after it. */
  lemma SliceElements<T>(s: seq<T>, start: Option<int>, stop: Option<int>)
    ensures SliceBound(start, |s|, 0) + |Slice(s, start, stop)| <= |s|
    ensures forall k :: 0 <= k < |Slice(s, start, stop)| ==>
              Slice(s, start, stop)[k] == s[SliceBound(start, |s|, 0) + k]
  {
  }

  /** Within range, a Python slice is Dafny's subsequence; a reversed range is empty. */
  lemma SliceInRange<T>(s: seq<T>, a: int, b: int)
    requires 0 <= a <= |s| && 0 <= b <= |s|
    ensures Slice(s, Some(a), Some(b)) == if a <= b then s[a..b] else []
  {
  }

  /** What a reader loop produces: `f` applied to every row in order, and the
      first row on which `f` raises aborts the loop with that exception. */
  function MapRows<T>(f: seq<string> -> Result<T>, rows: seq<seq<string>>): Result<seq<T>>
  {
    if rows == [] then Ok([])
    else
      var n := |rows| - 1;
      match MapRows(f, rows[..n])
      case Err(e) => Err(e)
      case Ok(prefix) =>
        match f(rows[n])
        case Err(e) => Err(e)
        case Ok(v) => Ok(prefix + [v])
  }

  /** The reader loop succeeds exactly when `f` succeeds on every row, and
      then holds `f`'s results in row order; otherwise it raises what `f`
      raises on the first row it fails on. */
  lemma {:induction false} MapRowsResults<T>(f: seq<string> -> Result<T>, rows: seq<seq<string>>)
    ensures MapRows(f, rows).Ok? <==> forall i :: 0 <= i < |rows| ==> f(rows[i]).Ok?
    ensures MapRows(f, rows).Ok? ==>
              |MapRows(f, rows).value| == |rows| &&
              forall i :: 0 <= i < |rows| ==> f(rows[i]) == Ok(MapRows(f, rows).value[i])
    ensures MapRows(f, rows).Err? ==>
              exists k :: 0 <= k < |rows| && f(rows[k]) == Err(MapRows(f, rows).error) &&
                          forall j :: 0 <= j < k ==> f(rows[j]).Ok?
  {
    if rows != [] {
      var n := |rows| - 1;
      MapRowsResults(f, rows[..n]);
      assert forall i :: 0 <= i < n ==> rows[..n][i] == rows[i];
      if MapRows(f, rows[..n]).Err? {
        var e := MapRows(f, rows[..n]).error;
        var k :| 0 <= k < n && f(rows[..n][k]) == Err(e) && forall j :: 0 <= j < k ==> f(rows[..n][j]).Ok?;
        assert f(rows[k]) == Err(e);
      }
    }
  }

  /** Once a prefix of the rows fails, the rest of the rows are never read. */
  lemma {:induction false} MapRowsStopsAtFailure<T>(f: seq<string> -> Result<T>, rows: seq<seq<string>>, k: nat)
    requires k <= |rows| && MapRows(f, rows[..k]).Err?
    ensures MapRows(f, rows) == MapRows(f, rows[..k])
  {
    MapRowsStopBetween(f, rows, k, |rows|);
    assert rows[..|rows|] == rows;
  }

  lemma {:induction false} MapRowsStopBetween<T>(f: seq<string> -> Result<T>, rows: seq<seq<string>>, k: nat, m: nat)
    requires k <= m <= |rows| && MapRows(f, rows[..k]).Err?
    ensures MapRows(f, rows[..m]) == MapRows(f, rows[..k])
  {
    if m > k {
      MapRowsStopBetween(f, rows, k, m - 1);
      var r := rows[..m];
      assert r[..|r| - 1] == rows[..m - 1];
      assert MapRows(f, r[..|r| - 1]).Err?;
    }
  }

  /** The loop shared by every reader: call `f` on each data row and append
      the result to a list, in row order. */
  method Collect<T>(f: seq<string> -> Result<T>, rows: seq<seq<string>>) returns (r: Result<seq<T>>)
    ensures r == MapRows(f, rows)
  {
    var records: seq<T> := [];
    var i := 0;
    while i < |rows|
      invariant 0 <= i <= |rows|
      invariant MapRows(f, rows[..i]) == Ok(records)
    {
      assert rows[..i + 1][..i] == rows[..i];
      match f(rows[i])
      case Err(e) =>
        MapRowsStopsAtFailure(f, rows, i + 1);
        return Err(e);
      case Ok(v) =>
        records := records + [v];
      i := i + 1;
    }
    assert rows[..i] == rows;
    r := Ok(records);
  }
}
