/** The `Stock` value object of src/exc_1_5/stock.py: a name, a number of
    shares and a price, with validating setters for the last two, a `sell`
    that subtracts without checking, `from_row` and `read_portfolio`. */
module Stock {
  import opened Builtins
  import opened Conversions

  /** `Stock._types`: the conversions `from_row` applies by position. */
  const StockTypes: seq<Conversion> := [Str, Int, Float]

  /** The constructor arguments `from_row` computes from a row. */
  datatype StockArgs = StockArgs(name: Value, shares: Value, price: Value)

  /** `from_row`: convert the fields with `str`, `int` and `float` by
      position, dropping fields past the third, then pass them to the
      constructor, which raises TypeError when fewer than three arrive. A
      conversion error comes first, being raised while the list is built. */
  function FromRowArgs(row: seq<string>): (r: Result<StockArgs>)
    ensures r.Ok? <==> |row| >= 3 && ParseInt(row[1]).Ok? && ParseFloat(row[2]).Ok?
    ensures r.Ok? ==> r.value == StockArgs(StrV(row[0]), IntV(ParseInt(row[1]).value), FloatV(ParseFloat(row[2]).value))
    ensures |row| >= 2 && ParseInt(row[1]).Err? ==> r == Err(ValueError(row[1]))
    ensures (|row| < 2 || ParseInt(row[1]).Ok?) && |row| >= 3 && ParseFloat(row[2]).Err? ==> r == Err(ValueError(row[2]))
    ensures (|row| < 2 || ParseInt(row[1]).Ok?) && |row| < 3 ==> r == Err(TypeError)
  {
    ConvertAllResults(StockTypes, row);
    match ConvertAll(StockTypes, row)
    case Err(e) => Err(e)
    case Ok(vs) => if |vs| < 3 then Err(TypeError) else Ok(StockArgs(vs[0], vs[1], vs[2]))
  }

  /** Fields past the third are never looked at. */
  lemma FromRowIgnoresExtra(row: seq<string>, extra: seq<string>)
    requires |row| >= 3
    ensures FromRowArgs(row + extra) == FromRowArgs(row)
  {
    assert (row + extra)[..3] == row[..3];
  }

  /** A row written from a name, a share count and a whole price reads back
      as those values, the price as a float. */
  lemma FromRowRoundTrip(name: string, shares: int, price: int)
    ensures FromRowArgs([name, IntText(shares), IntText(price)]) ==
            Ok(StockArgs(StrV(name), IntV(shares), FloatV(price as real)))
  {
    IntRoundTrip(shares);
    IntRoundTrip(price);
    IntTextIsFloatText(IntText(price));
  }

  /** The number a value holds, for the numeric values. */
  function AsReal(v: Value): real
    requires !v.StrV?
  {
    if v.IntV? then v.n as real else v.x
  }

  /** `a - b`: int minus int is an int, a float on either side gives a
      float, and a string on either side raises TypeError. */
  function Subtract(a: Value, b: Value): (r: Result<Value>)
    ensures r.Ok? <==> !a.StrV? && !b.StrV?
    ensures r.Err? ==> r.error == TypeError
    ensures a.IntV? && b.IntV? ==> r == Ok(IntV(a.n - b.n))
    ensures r.Ok? && (a.FloatV? || b.FloatV?) ==> r.value.FloatV? && r.value.x == AsReal(a) - AsReal(b)
  {
    match (a, b)
    case (IntV(x), IntV(y)) => Ok(IntV(x - y))
    case (StrV(_), _) => Err(TypeError)
    case (_, StrV(_)) => Err(TypeError)
    case _ => Ok(FloatV(AsReal(a) - AsReal(b)))
  }

  /** Subtracting a number and then its negation gives back the original
      amount, as a float once either side was a float. */
  lemma SubtractUndo(a: Value, b: Value)
    requires !a.StrV? && !b.StrV?
    ensures Subtract(a, b).Ok?
    ensures var back := Subtract(Subtract(a, b).value, if b.IntV? then IntV(-b.n) else FloatV(-b.x));
            back.Ok? && !back.value.StrV? && AsReal(back.value) == AsReal(a) &&
            (a.IntV? && b.IntV? ==> back.value == a)
  {
  }

  class Stock {
    var name: Value
    /** `_shares` */
    var shares: Value
    /** `_price` */
    var price: Value

    /** The state the setters guard: a non-negative int number of shares
        and a non-negative float price. */
    predicate Checked()
      reads this
    {
      shares.IntV? && shares.n >= 0 && price.FloatV? && price.x >= 0.0
    }

    /** `Stock(name, shares, price)` stores its arguments as given, without
        the setters' checks. */
    constructor(name: Value, shares: Value, price: Value)
      ensures this.name == name && this.shares == shares && this.price == price
    {
      this.name := name;
      this.shares := shares;
      this.price := price;
    }

    /** `Stock.from_row(row)`. */
    static method FromRow(row: seq<string>) returns (r: Result<Stock>)
      ensures FromRowArgs(row).Err? ==> r == Err(FromRowArgs(row).error)
      ensures FromRowArgs(row).Ok? ==>
                r.Ok? && fresh(r.value) &&
                StockArgs(r.value.name, r.value.shares, r.value.price) == FromRowArgs(row).value && r.value.Checked() ==
                (ParseInt(row[1]).value >= 0 && ParseFloat(row[2]).value >= 0.0)
    {
      match FromRowArgs(row)
      case Err(e) =>
        return Err(e);
      case Ok(args) =>
        var s := new Stock(args.name, args.shares, args.price);
        return Ok(s);
    }

    /** `self.shares = value`: an int that is not negative is stored;
        anything else raises (TypeError for a non-int, ValueError for a
        negative int) and leaves the state as it was. */
    method SetShares(value: Value) returns (err: Option<Error>)
      modifies this
      ensures !value.IntV? ==> err == Some(TypeError)
      ensures value.IntV? && value.n < 0 ==> err == Some(ValueError("shares must be >= 0"))
      ensures value.IntV? && value.n >= 0 ==> err == None
      ensures shares == if err == None then value else old(shares)
      ensures name == old(name) && price == old(price)
      ensures old(Checked()) ==> Checked()
    {
      if !value.IntV? {
        return Some(TypeError);
      }
      if value.n < 0 {
        return Some(ValueError("shares must be >= 0"));
      }
      shares := value;
      err := None;
    }

    /** `self.price = value`: as for shares, with float as the required type,
        so an int price raises TypeError. */
    method SetPrice(value: Value) returns (err: Option<Error>)
      modifies this
      ensures !value.FloatV? ==> err == Some(TypeError)
      ensures value.FloatV? && value.x < 0.0 ==> err == Some(ValueError("price must be >= 0"))
      ensures value.FloatV? && value.x >= 0.0 ==> err == None
      ensures price == if err == None then value else old(price)
      ensures name == old(name) && shares == old(shares)
      ensures old(Checked()) ==> Checked()
    {
      if !value.FloatV? {
        return Some(TypeError);
      }
      if value.x < 0.0 {
        return Some(ValueError("price must be >= 0"));
      }
      price := value;
      err := None;
    }

    /** `sell(n)`: `_shares -= n` with no check, so the shares can go
        negative; only a non-number raises (TypeError), leaving the state as
        it was. */
    method Sell(n: Value) returns (err: Option<Error>)
      modifies this
      ensures Subtract(old(shares), n).Ok? ==> err == None && shares == Subtract(old(shares), n).value
      ensures Subtract(old(shares), n).Err? ==> err == Some(TypeError) && shares == old(shares)
      ensures old(shares).IntV? && n.IntV? ==> shares == IntV(old(shares).n - n.n)
      ensures name == old(name) && price == old(price)
    {
      match Subtract(shares, n)
      case Err(e) =>
        return Some(e);
      case Ok(v) =>
        shares := v;
        return None;
    }
  }

  /** `read_portfolio(lines, data_object)`: `fromRow` is the object's
      `from_row`, `None` when it has none, which raises ValueError before the
      rows are read. Otherwise the header row is skipped and `from_row` is
      called on every other row, in order. */
  method ReadPortfolio<T>(lines: seq<seq<string>>, fromRow: Option<seq<string> -> Result<T>>)
    returns (r: Result<seq<T>>)
    ensures fromRow.None? ==> r == Err(ValueError("Wrong object provided. No 'from_row' class method found."))
    ensures fromRow.Some? && lines == [] ==> r == Err(StopIteration)
    ensures fromRow.Some? && lines != [] ==> r == MapRows(fromRow.value, lines[1..])
  {
    if fromRow.None? {
      return Err(ValueError("Wrong object provided. No 'from_row' class method found."));
    }
    if lines == [] {
      return Err(StopIteration);
    }
    r := Collect(fromRow.value, lines[1..]);
  }
}
