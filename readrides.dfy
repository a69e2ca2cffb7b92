/** The bus-ride readers and the four-list store `RideData` of
    src/exc_2_1/readrides.py. A data row holds a route, a date, a day type
    and a number of rides; rows come already split into fields, the first
    row being the header. */
module ReadRides {
  import opened Builtins
  import opened Conversions

  /** The tuple `(route, date, daytype, rides)` read from one row. */
  datatype Ride = Ride(route: string, date: string, daytype: string, rides: int)

  /** The field extraction shared by every reader: fields 0 to 2 verbatim,
      `int` of field 3. A row of fewer than four fields raises IndexError. */
  function DecodeRide(row: seq<string>): (r: Result<Ride>)
    ensures |row| < 4 ==> r == Err(IndexError)
    ensures |row| >= 4 ==> (r.Ok? <==> ParseInt(row[3]).Ok?)
    ensures |row| >= 4 && r.Err? ==> r.error == ValueError(row[3])
    ensures r.Ok? ==> |row| >= 4 && r.value.route == row[0] && r.value.date == row[1] &&
                      r.value.daytype == row[2] && ParseInt(row[3]) == Ok(r.value.rides)
  {
    if |row| < 4 then Err(IndexError)
    else
      match ParseInt(row[3])
      case Err(e) => Err(e)
      case Ok(n) => Ok(Ride(row[0], row[1], row[2], n))
  }

  /** Fields past the fourth are never looked at. */
  lemma DecodeRideIgnoresExtra(row: seq<string>, extra: seq<string>)
    requires |row| >= 4
    ensures DecodeRide(row + extra) == DecodeRide(row)
  {
    assert (row + extra)[..4] == row[..4];
  }

  /** The row a ride is written as. */
  function RideRow(ride: Ride): seq<string>
  {
    [ride.route, ride.date, ride.daytype, IntText(ride.rides)]
  }

  /** Decoding the row of a ride gives the ride back. */
  lemma RideRoundTrip(ride: Ride)
    ensures DecodeRide(RideRow(ride)) == Ok(ride)
  {
    IntRoundTrip(ride.rides);
  }

  /** `read_rides_as_tuples`: skip the header row, decode every other row. */
  method ReadRidesAsTuples(lines: seq<seq<string>>) returns (r: Result<seq<Ride>>)
    ensures lines == [] ==> r == Err(StopIteration)
    ensures lines != [] ==> r == MapRows(DecodeRide, lines[1..])
  {
    if lines == [] {
      return Err(StopIteration);
    }
    r := Collect(DecodeRide, lines[1..]);
  }

  /** The four lists of `read_rides_as_columns`, by the names of its result. */
  datatype RideColumns = RideColumns(routes: seq<string>, dates: seq<string>, daytypes: seq<string>, numrides: seq<int>)

  /** Rides laid out as four parallel lists. */
  function Unzip(rides: seq<Ride>): (c: RideColumns)
    ensures |c.routes| == |rides| && |c.dates| == |rides| && |c.daytypes| == |rides| && |c.numrides| == |rides|
    ensures forall i :: 0 <= i < |rides| ==>
              Ride(c.routes[i], c.dates[i], c.daytypes[i], c.numrides[i]) == rides[i]
  {
    if rides == [] then RideColumns([], [], [], [])
    else
      var init := Unzip(rides[..|rides| - 1]);
      var last := rides[|rides| - 1];
      RideColumns(init.routes + [last.route], init.dates + [last.date],
                  init.daytypes + [last.daytype], init.numrides + [last.rides])
  }

  /** Appending one ride to the end of four parallel lists. */
  lemma UnzipSnoc(rides: seq<Ride>, ride: Ride)
    ensures Unzip(rides + [ride]) ==
            RideColumns(Unzip(rides).routes + [ride.route], Unzip(rides).dates + [ride.date],
                        Unzip(rides).daytypes + [ride.daytype], Unzip(rides).numrides + [ride.rides])
  {
    assert (rides + [ride])[..|rides|] == rides;
  }

  /** `read_rides_as_columns`: skip the header row and append the fields of
      every other row to four lists. A bad row raises out of the function,
      so the lists it has partly grown are never seen. The lists are those of
      the tuples
      `read_rides_as_tuples` reads, and the first bad row raises the same
      exception. */
  method ReadRidesAsColumns(lines: seq<seq<string>>) returns (r: Result<RideColumns>)
    ensures lines == [] ==> r == Err(StopIteration)
    ensures lines != [] && MapRows(DecodeRide, lines[1..]).Err? ==>
              r == Err(MapRows(DecodeRide, lines[1..]).error)
    ensures lines != [] && MapRows(DecodeRide, lines[1..]).Ok? ==>
              r == Ok(Unzip(MapRows(DecodeRide, lines[1..]).value))
  {
    if lines == [] {
      return Err(StopIteration);
    }
    var rows := lines[1..];
    var routes, dates, daytypes, numrides := [], [], [], [];
    ghost var rides: seq<Ride> := [];
    var i := 0;
    while i < |rows|
      invariant 0 <= i <= |rows|
      invariant MapRows(DecodeRide, rows[..i]) == Ok(rides)
      invariant Unzip(rides) == RideColumns(routes, dates, daytypes, numrides)
    {
      assert rows[..i + 1][..i] == rows[..i];
      match DecodeRide(rows[i])
      case Err(e) =>
        MapRowsStopsAtFailure(DecodeRide, rows, i + 1);
        return Err(e);
      case Ok(ride) =>
        routes := routes + [ride.route];
        dates := dates + [ride.date];
        daytypes := daytypes + [ride.daytype];
        numrides := numrides + [ride.rides];
        UnzipSnoc(rides, ride);
        rides := rides + [ride];
      i := i + 1;
    }
    assert rows[..i] == rows;
    r := Ok(RideColumns(routes, dates, daytypes, numrides));
  }

  /** The keys `RideData.append` reads, in the order it reads them. */
  const RideKeys: seq<string> := ["route", "date", "daytype", "rides"]

  /** `dict(route=..., date=..., daytype=..., rides=...)`. */
  function RideRecord(route: Value, date: Value, daytype: Value, rides: Value): (d: map<string, Value>)
    ensures d.Keys == {"route", "date", "daytype", "rides"}
  {
    map["route" := route, "date" := date, "daytype" := daytype, "rides" := rides]
  }

  /** The dict `read_rides_as_dict` builds for a ride. */
  function RideDict(ride: Ride): map<string, Value>
  {
    RideRecord(StrV(ride.route), StrV(ride.date), StrV(ride.daytype), IntV(ride.rides))
  }

  /** How many of the keys `append` reads, in order, are present before the
      first missing one. */
  function Reached(d: map<string, Value>): (k: nat)
    ensures k <= 4
    ensures forall j :: 0 <= j < k ==> RideKeys[j] in d
    ensures k < 4 ==> RideKeys[k] !in d
  {
    if "route" !in d then 0
    else if "date" !in d then 1
    else if "daytype" !in d then 2
    else if "rides" !in d then 3
    else 4
  }

  /** The four lists `r[start:stop]` cuts out, as `__getitem__` combines
      them: one dict of the sliced lists when the sliced routes hold exactly
      one element; otherwise one dict per sliced route, which raises
      IndexError when another sliced list is shorter. */
  function RideSliceView(routes: seq<Value>, dates: seq<Value>, daytypes: seq<Value>, numrides: seq<Value>,
                         start: Option<int>, stop: Option<int>): (r: Result<Sliced>)
  {
    var rs := Slice(routes, start, stop);
    var ds := Slice(dates, start, stop);
    var ts := Slice(daytypes, start, stop);
    var ns := Slice(numrides, start, stop);
    if |rs| == 1 then Ok(ColumnsDict(RideLists(rs, ds, ts, ns)))
    else if |ds| < |rs| || |ts| < |rs| || |ns| < |rs| then Err(IndexError)
    else Ok(RecordList(RideRows(rs, ds, ts, ns, |rs|)))
  }

  /** `dict(route=routes, date=dates, daytype=daytypes, rides=numrides)`. */
  function RideLists(routes: seq<Value>, dates: seq<Value>, daytypes: seq<Value>, numrides: seq<Value>): map<string, seq<Value>>
  {
    map["route" := routes, "date" := dates, "daytype" := daytypes, "rides" := numrides]
  }

  /** The first `m` dicts of the loop over `range(len(routes))`. */
  function RideRows(routes: seq<Value>, dates: seq<Value>, daytypes: seq<Value>, numrides: seq<Value>, m: nat)
    : (rows: seq<map<string, Value>>)
    requires m <= |routes| && m <= |dates| && m <= |daytypes| && m <= |numrides|
    ensures |rows| == m
    ensures forall k :: 0 <= k < m ==> rows[k] == RideRecord(routes[k], dates[k], daytypes[k], numrides[k])
  {
    if m == 0 then []
    else RideRows(routes, dates, daytypes, numrides, m - 1) + [RideRecord(routes[m - 1], dates[m - 1], daytypes[m - 1], numrides[m - 1])]
  }

  /** In range, the slice of four lists of equal length zips the four
      subsequences. */
  lemma RideSliceRows(routes: seq<Value>, dates: seq<Value>, daytypes: seq<Value>, numrides: seq<Value>,
                      a: nat, b: nat)
    requires |dates| == |routes| && |daytypes| == |routes| && |numrides| == |routes|
    requires a <= b <= |routes| && b - a != 1
    ensures RideSliceView(routes, dates, daytypes, numrides, Some(a), Some(b)) ==
            Ok(RecordList(RideRows(routes[a..b], dates[a..b], daytypes[a..b], numrides[a..b], b - a)))
  {
    SliceInRange(routes, a, b);
    SliceInRange(dates, a, b);
    SliceInRange(daytypes, a, b);
    SliceInRange(numrides, a, b);
  }

  /** On four lists of equal length, the slice `[a:b]` of more or fewer than
      one element is the list of `b - a` dicts, dict `k` holding element
      `a + k` of each list. */
  lemma RideSliceOfRectangular(routes: seq<Value>, dates: seq<Value>, daytypes: seq<Value>, numrides: seq<Value>,
                               a: nat, b: nat)
    requires |dates| == |routes| && |daytypes| == |routes| && |numrides| == |routes|
    requires a <= b <= |routes| && b - a != 1
    ensures var v := RideSliceView(routes, dates, daytypes, numrides, Some(a), Some(b));
            && v.Ok? && v.value.RecordList? && |v.value.records| == b - a
            && forall k :: 0 <= k < b - a ==>
                 v.value.records[k] == RideRecord(routes[a + k], dates[a + k], daytypes[a + k], numrides[a + k])
  {
    var rs, ds, ts, ns := routes[a..b], dates[a..b], daytypes[a..b], numrides[a..b];
    RideSliceRows(routes, dates, daytypes, numrides, a, b);
    var got := RideRows(rs, ds, ts, ns, b - a);
    forall k | 0 <= k < b - a
      ensures got[k] == RideRecord(routes[a + k], dates[a + k], daytypes[a + k], numrides[a + k])
    {
      assert got[k] == RideRecord(rs[k], ds[k], ts[k], ns[k]);
      assert rs[k] == routes[a + k] && ds[k] == dates[a + k];
      assert ts[k] == daytypes[a + k] && ns[k] == numrides[a + k];
    }
  }

  /** On four lists of equal length, a slice of exactly one element is one
      dict of four one-element lists. */
  lemma RideSliceSingle(routes: seq<Value>, dates: seq<Value>, daytypes: seq<Value>, numrides: seq<Value>, a: nat)
    requires |dates| == |routes| && |daytypes| == |routes| && |numrides| == |routes|
    requires a < |routes|
    ensures RideSliceView(routes, dates, daytypes, numrides, Some(a), Some(a + 1)) ==
            Ok(ColumnsDict(RideLists([routes[a]], [dates[a]], [daytypes[a]], [numrides[a]])))
  {
    SliceInRange(routes, a, a + 1);
    SliceInRange(dates, a, a + 1);
    SliceInRange(daytypes, a, a + 1);
    SliceInRange(numrides, a, a + 1);
    assert routes[a..a + 1] == [routes[a]] && dates[a..a + 1] == [dates[a]];
    assert daytypes[a..a + 1] == [daytypes[a]] && numrides[a..a + 1] == [numrides[a]];
  }

  /** `RideData`: four parallel lists. */
  class RideData {
    var routes: seq<Value>
    var dates: seq<Value>
    var daytypes: seq<Value>
    var numrides: seq<Value>

    /** All four lists have the same length. */
    predicate Rectangular()
      reads this
    {
      |dates| == |routes| && |daytypes| == |routes| && |numrides| == |routes|
    }

    /** Four empty lists. */
    constructor()
      ensures routes == [] && dates == [] && daytypes == [] && numrides == []
      ensures Rectangular()
    {
      routes, dates, daytypes, numrides := [], [], [], [];
    }

    /** `len(self)`: the number of routes, which is the length of every list
        while the lists are parallel. */
    function Length(): (n: nat)
      reads this
      ensures n == |routes|
      ensures Rectangular() ==> n == |dates| && n == |daytypes| && n == |numrides|
    {
      |routes|
    }

    /** `append(d)`: append `d["route"]`, `d["date"]`, `d["daytype"]` and
        `d["rides"]` to their lists in that order. The first missing key
        raises KeyError with the lists before it already grown, so the lists
        stay parallel exactly when all four keys or none are present. */
    method Append(d: map<string, Value>) returns (err: Option<Error>)
      modifies this
      ensures err == if Reached(d) == 4 then None else Some(KeyError(RideKeys[Reached(d)]))
      ensures routes == old(routes) + (if 0 < Reached(d) then [d["route"]] else [])
      ensures dates == old(dates) + (if 1 < Reached(d) then [d["date"]] else [])
      ensures daytypes == old(daytypes) + (if 2 < Reached(d) then [d["daytype"]] else [])
      ensures numrides == old(numrides) + (if 3 < Reached(d) then [d["rides"]] else [])
      ensures old(Rectangular()) ==> (Rectangular() <==> Reached(d) == 0 || Reached(d) == 4)
    {
      if "route" !in d {
        return Some(KeyError("route"));
      }
      routes := routes + [d["route"]];
      if "date" !in d {
        return Some(KeyError("date"));
      }
      dates := dates + [d["date"]];
      if "daytype" !in d {
        return Some(KeyError("daytype"));
      }
      daytypes := daytypes + [d["daytype"]];
      if "rides" !in d {
        return Some(KeyError("rides"));
      }
      numrides := numrides + [d["rides"]];
      err := None;
    }

    /** `self[start:stop]`. */
    method GetSlice(start: Option<int>, stop: Option<int>) returns (r: Result<Sliced>)
      ensures r == RideSliceView(routes, dates, daytypes, numrides, start, stop)
    {
      var rs := Slice(routes, start, stop);
      var ds := Slice(dates, start, stop);
      var ts := Slice(daytypes, start, stop);
      var ns := Slice(numrides, start, stop);
      if |rs| == 1 {
        return Ok(ColumnsDict(RideLists(rs, ds, ts, ns)));
      }
      var rows: seq<map<string, Value>> := [];
      var i := 0;
      while i < |rs|
        invariant i <= |rs| && i <= |ds| && i <= |ts| && i <= |ns|
        invariant rows == RideRows(rs, ds, ts, ns, i)
      {
        if i == |ds| || i == |ts| || i == |ns| {
          return Err(IndexError);
        }
        rows := rows + [RideRecord(rs[i], ds[i], ts[i], ns[i])];
        i := i + 1;
      }
      r := Ok(RecordList(rows));
    }
  }

  /** `read_rides_as_dict`: skip the header row and append the dict of every
      other row to a fresh `RideData`. The store holds, list by list, the
      fields of the tuples `read_rides_as_tuples` reads. */
  method ReadRidesAsDict(lines: seq<seq<string>>) returns (r: Result<RideData>)
    ensures lines == [] ==> r == Err(StopIteration)
    ensures lines != [] && MapRows(DecodeRide, lines[1..]).Err? ==>
              r == Err(MapRows(DecodeRide, lines[1..]).error)
    ensures lines != [] && MapRows(DecodeRide, lines[1..]).Ok? ==>
              var rides := MapRows(DecodeRide, lines[1..]).value;
              && r.Ok? && fresh(r.value) && r.value.Rectangular() && r.value.Length() == |rides|
              && forall i :: 0 <= i < |rides| ==>
                   && r.value.routes[i] == StrV(rides[i].route)
                   && r.value.dates[i] == StrV(rides[i].date)
                   && r.value.daytypes[i] == StrV(rides[i].daytype)
                   && r.value.numrides[i] == IntV(rides[i].rides)
  {
    if lines == [] {
      return Err(StopIteration);
    }
    var rows := lines[1..];
    var store := new RideData();
    ghost var rides: seq<Ride> := [];
    var i := 0;
    while i < |rows|
      invariant 0 <= i <= |rows|
      invariant fresh(store) && store.Rectangular() && |store.routes| == |rides|
      invariant MapRows(DecodeRide, rows[..i]) == Ok(rides)
      invariant forall j :: 0 <= j < |rides| ==>
                  && store.routes[j] == StrV(rides[j].route)
                  && store.dates[j] == StrV(rides[j].date)
                  && store.daytypes[j] == StrV(rides[j].daytype)
                  && store.numrides[j] == IntV(rides[j].rides)
    {
      assert rows[..i + 1][..i] == rows[..i];
      match DecodeRide(rows[i])
      case Err(e) =>
        MapRowsStopsAtFailure(DecodeRide, rows, i + 1);
        return Err(e);
      case Ok(ride) =>
        var err := store.Append(RideDict(ride));
        assert err == None;
        rides := rides + [ride];
      i := i + 1;
    }
    assert rows[..i] == rows;
    r := Ok(store);
  }
}
