/** The column conversions `str`, `int` and `float` applied to one CSV field,
    and `zip(types, row)` applied field by field. `int` and `float` accept
    plain decimal text: an optional sign, ASCII digits and, for `float`, at
    most one decimal point. */
module Conversions {
  import opened Builtins

  /** A column type as the readers receive it: `str`, `int` or `float`. */
  datatype Conversion = Str | Int | Float

  predicate IsDigit(c: char) { '0' <= c <= '9' }

  predicate AllDigits(s: string) { forall i :: 0 <= i < |s| ==> IsDigit(s[i]) }

  /** The number that a string of decimal digits denotes. */
  function DigitsValue(s: string): nat
    requires AllDigits(s)
  {
    if s == [] then 0
    else DigitsValue(s[..|s| - 1]) * 10 + ((s[|s| - 1] as int) - ('0' as int))
  }

  /** `str(n)` for a natural number: its shortest decimal digits. */
  function Decimal(n: nat): (r: string)
    ensures |r| > 0 && AllDigits(r)
    ensures n > 0 ==> r[0] != '0'
  {
    if n < 10 then [(('0' as int) + n) as char]
    else Decimal(n / 10) + [(('0' as int) + n % 10) as char]
  }

  /** `str(n)` for an integer. */
  function IntText(n: int): (r: string)
    ensures |r| > 0
  {
    if n < 0 then "-" + Decimal(-n) else Decimal(n)
  }

  /** The text after an optional leading sign, and the sign it gives. */
  function SplitSign(s: string): (int, string)
  {
    if |s| > 0 && (s[0] == '-' || s[0] == '+') then (if s[0] == '-' then -1 else 1, s[1..])
    else (1, s)
  }

  /** `int(s)`: an optional sign followed by at least one decimal digit;
      anything else raises ValueError carrying the rejected text. */
  function ParseInt(s: string): (r: Result<int>)
    ensures r.Ok? <==> |s| > 0 && (IsDigit(s[0]) || (|s| > 1 && (s[0] == '+' || s[0] == '-'))) &&
                       forall i :: 0 < i < |s| ==> IsDigit(s[i])
    ensures r.Err? ==> r.error == ValueError(s)
    ensures |s| > 0 && AllDigits(s) ==> r == Ok(DigitsValue(s))
    ensures r.Ok? && s[0] == '+' ==> AllDigits(s[1..]) && r.value == DigitsValue(s[1..])
    ensures r.Ok? && s[0] == '-' ==> AllDigits(s[1..]) && r.value == -(DigitsValue(s[1..]) as int)
  {
    var (sign, digits) := SplitSign(s);
    if |digits| > 0 && AllDigits(digits) then Ok(sign * DigitsValue(digits))
    else Err(ValueError(s))
  }

  /** Reading back the digits of `n` gives `n`. */
  lemma {:induction false} DecimalRoundTrip(n: nat)
    ensures DigitsValue(Decimal(n)) == n
  {
    if n >= 10 {
      var d := Decimal(n / 10);
      var s := d + [(('0' as int) + n % 10) as char];
      assert s[..|s| - 1] == d;
      DecimalRoundTrip(n / 10);
    }
  }

  /** `int(str(n)) == n` for every integer. */
  lemma IntRoundTrip(n: int)
    ensures ParseInt(IntText(n)) == Ok(n)
  {
    if n < 0 {
      DecimalRoundTrip(-n);
      assert SplitSign(IntText(n)) == (-1, Decimal(-n));
    } else {
      DecimalRoundTrip(n);
    }
  }

  /** The position of the first `c` in `s`, or `|s|` when there is none. */
  function IndexOf(s: string, c: char): (i: nat)
    ensures i <= |s|
    ensures i < |s| ==> s[i] == c
    ensures forall j :: 0 <= j < i ==> s[j] != c
  {
    if s == [] then 0
    else if s[0] == c then 0
    else IndexOf(s[1..], c) + 1
  }

  function Pow10(k: nat): (p: nat)
    ensures p > 0
  {
    if k == 0 then 1 else 10 * Pow10(k - 1)
  }

  /** `float(s)` for decimal text: an optional sign, then digits with at most
      one decimal point, and at least one digit in all ("1.", ".5", "-2.25"). */
  function ParseFloat(s: string): (r: Result<real>)
    ensures r.Err? ==> r.error == ValueError(s)
  {
    var (sign, body) := SplitSign(s);
    var p := IndexOf(body, '.');
    var whole := body[..p];
    var frac := if p < |body| then body[p + 1..] else [];
    if AllDigits(whole) && AllDigits(frac) && |whole| + |frac| > 0 then
      Ok(sign as real * (DigitsValue(whole) as real + DigitsValue(frac) as real / Pow10(|frac|) as real))
    else Err(ValueError(s))
  }

  /** Every text `int` accepts, `float` accepts too, with the same value. */
  lemma IntTextIsFloatText(s: string)
    requires ParseInt(s).Ok?
    ensures ParseFloat(s) == Ok(ParseInt(s).value as real)
  {
    var (sign, body) := SplitSign(s);
    assert AllDigits(body);
    var p := IndexOf(body, '.');
    assert p == |body|;
    assert body[..p] == body;
  }

  /** A column conversion applied to one field. */
  function Convert(t: Conversion, s: string): (r: Result<Value>)
    ensures t == Str ==> r == Ok(StrV(s))
    ensures t == Int && r.Ok? ==> r.value.IntV?
    ensures t == Float && r.Ok? ==> r.value.FloatV?
    ensures t == Int ==> (r.Ok? <==> ParseInt(s).Ok?) && (r.Ok? ==> r.value.n == ParseInt(s).value)
    ensures t == Float ==> (r.Ok? <==> ParseFloat(s).Ok?) && (r.Ok? ==> r.value.x == ParseFloat(s).value)
    ensures t != Str && r.Err? ==> r.error == ValueError(s)
  {
    match t
    case Str => Ok(StrV(s))
    case Int => (match ParseInt(s) case Ok(n) => Ok(IntV(n)) case Err(e) => Err(e))
    case Float => (match ParseFloat(s) case Ok(x) => Ok(FloatV(x)) case Err(e) => Err(e))
  }

  /** `[func(val) for func, val in zip(types, row)]`: the pairs past the
      shorter of the two are dropped, and the first failing conversion raises. */
  function ConvertAll(types: seq<Conversion>, row: seq<string>): (r: Result<seq<Value>>)
    ensures r.Ok? ==> |r.value| == Min(|types|, |row|)
  {
    if types == [] || row == [] then Ok([])
    else
      match Convert(types[0], row[0])
      case Err(e) => Err(e)
      case Ok(v) =>
        match ConvertAll(types[1..], row[1..])
        case Err(e) => Err(e)
        case Ok(vs) => Ok([v] + vs)
  }

  /** `ConvertAll` succeeds exactly when every paired conversion does, and
      then holds their values in order, as many as the shorter of the two
      lists; otherwise it raises what the first failing conversion raises. */
  lemma ConvertAllResults(types: seq<Conversion>, row: seq<string>)
    ensures ConvertAll(types, row).Ok? <==> forall i :: 0 <= i < |types| && i < |row| ==> Convert(types[i], row[i]).Ok?
    ensures ConvertAll(types, row).Ok? ==>
              forall i :: 0 <= i < |ConvertAll(types, row).value| ==> Convert(types[i], row[i]) == Ok(ConvertAll(types, row).value[i])
    ensures ConvertAll(types, row).Err? ==>
              exists k :: 0 <= k < |types| && k < |row| && Convert(types[k], row[k]) == Err(ConvertAll(types, row).error) &&
                          forall j :: 0 <= j < k ==> Convert(types[j], row[j]).Ok?
  {
    ConvertAllOk(types, row);
    ConvertAllErr(types, row);
  }

  lemma {:induction false} ConvertAllOk(types: seq<Conversion>, row: seq<string>)
    ensures ConvertAll(types, row).Ok? <==> forall i :: 0 <= i < |types| && i < |row| ==> Convert(types[i], row[i]).Ok?
    ensures ConvertAll(types, row).Ok? ==>
              forall i :: 0 <= i < |ConvertAll(types, row).value| ==> Convert(types[i], row[i]) == Ok(ConvertAll(types, row).value[i])
  {
    if types != [] && row != [] && Convert(types[0], row[0]).Ok? {
      ConvertAllOk(types[1..], row[1..]);
      assert forall i :: 1 <= i < |types| && i < |row| ==>
               Convert(types[i], row[i]) == Convert(types[1..][i - 1], row[1..][i - 1]);
    }
  }

  lemma {:induction false} ConvertAllErr(types: seq<Conversion>, row: seq<string>)
    ensures ConvertAll(types, row).Err? ==>
              exists k :: 0 <= k < |types| && k < |row| && Convert(types[k], row[k]) == Err(ConvertAll(types, row).error) &&
                          forall j :: 0 <= j < k ==> Convert(types[j], row[j]).Ok?
  {
    if types != [] && row != [] && Convert(types[0], row[0]).Ok? {
      ConvertAllErr(types[1..], row[1..]);
      var rest := ConvertAll(types[1..], row[1..]);
      if rest.Err? {
        var k :| 0 <= k < |types| - 1 && k < |row| - 1 && Convert(types[1..][k], row[1..][k]) == Err(rest.error) &&
                 forall j :: 0 <= j < k ==> Convert(types[1..][j], row[1..][j]).Ok?;
        assert Convert(types[k + 1], row[k + 1]) == Err(rest.error);
        forall j | 0 <= j < k + 1
          ensures Convert(types[j], row[j]).Ok?
        {
          if j > 0 {
            assert types[j] == types[1..][j - 1] && row[j] == row[1..][j - 1];
          }
        }
      }
    }
  }
}
