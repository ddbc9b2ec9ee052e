/** The JavaScript number operations the bot relies on: unary `+` on a
    decimal balance string, `/` and the `| 0` truncation (ToInt32),
    computed on exact reals; the rounding of IEEE 754 doubles is not
    modelled. A
    JavaScript number that is not finite (`undefined` converted to a
    number, NaN, or an infinity) is `None` here: the bot only ever
    truncates such a value with `| 0`, which maps all of them to 0, or
    stores it in a trade record. */
module Numbers {
  import opened Wrappers

  predicate IsDigit(ch: char)
  {
    '0' <= ch <= '9'
  }

  predicate AllDigits(s: string)
  {
    forall i :: 0 <= i < |s| ==> IsDigit(s[i])
  }

  function DigitValue(ch: char): nat
    requires IsDigit(ch)
  {
    ch as int - '0' as int
  }

  /** The value of a string of decimal digits (the empty string is 0). */
  function WholeValue(s: string): nat
    requires AllDigits(s)
  {
    if s == [] then 0 else 10 * WholeValue(s[..|s| - 1]) + DigitValue(s[|s| - 1])
  }

  /** The value of the digits written after a decimal point. */
  function FracValue(s: string): real
    requires AllDigits(s)
  {
    if s == [] then 0.0 else (DigitValue(s[0]) as real + FracValue(s[1..])) / 10.0
  }

  function Pow10(n: nat): (r: real)
    ensures r >= 1.0
  {
    if n == 0 then 1.0 else 10.0 * Pow10(n - 1)
  }

  /** Digits after the point always add up to less than one unit. */
  lemma {:induction false} FracBounds(s: string)
    requires AllDigits(s)
    ensures 0.0 <= FracValue(s) < 1.0
  {
    if s != [] {
      FracBounds(s[1..]);
    }
  }

  /** Keeping only the first m fractional digits loses less than one unit
      in the m-th place, and never adds anything. */
  lemma {:induction false} FracPrefixGap(s: string, m: nat)
    requires AllDigits(s) && m <= |s|
    ensures 0.0 <= FracValue(s) - FracValue(s[..m]) < 1.0 / Pow10(m)
  {
    if m == 0 {
      FracBounds(s);
      assert s[..0] == [];
    } else {
      var tail := s[1..];
      assert s[..m][1..] == tail[..m - 1];
      assert s[..m][0] == s[0];
      FracPrefixGap(tail, m - 1);
      var gap := FracValue(tail) - FracValue(tail[..m - 1]);
      assert FracValue(s) - FracValue(s[..m]) == gap / 10.0;
      var p := Pow10(m - 1);
      assert 1.0 / Pow10(m) == (1.0 / p) / 10.0;
    }
  }

  /** A decimal literal as the bot builds it: `whole` "." `frac`. */
  datatype Decimal = Decimal(whole: string, frac: string)
  {
    function Text(): string
    {
      whole + "." + frac
    }
  }

  /** Unary `+` applied to a decimal literal's text. It gives a number
      when both parts are digits and at least one digit is present,
      and NaN (None) otherwise. */
  function ToNumber(d: Decimal): (r: Option<real>)
    ensures r.Some? <==> AllDigits(d.whole) && AllDigits(d.frac) && |d.whole| + |d.frac| > 0
    ensures r.Some? ==> WholeValue(d.whole) as real <= r.value < WholeValue(d.whole) as real + 1.0
  {
    if AllDigits(d.whole) && AllDigits(d.frac) && |d.whole| + |d.frac| > 0 then
      FracBounds(d.frac);
      Some(WholeValue(d.whole) as real + FracValue(d.frac))
    else
      None
  }

  /** Truncation toward zero, the first step of ToInt32. */
  function Trunc(x: real): (n: int)
    ensures 0.0 <= x ==> n as real <= x < n as real + 1.0
    ensures x < 0.0 ==> n as real - 1.0 < x <= n as real
  {
    if x >= 0.0 then x.Floor else -((-x).Floor)
  }

  const TwoTo31: int := 0x8000_0000
  const TwoTo32: int := 0x1_0000_0000

  /** `x | 0`: ToInt32 of ECMAScript (section 7.1.6 of ECMA-262):
      a non-finite value gives 0, a finite one is truncated toward zero
      and wrapped into the signed 32-bit range. */
  function ToInt32(x: Option<real>): (r: int)
    ensures -TwoTo31 <= r < TwoTo31
    ensures x.None? ==> r == 0
    ensures x.Some? && -TwoTo31 as real <= x.value < TwoTo31 as real ==> r == Trunc(x.value)
  {
    match x
    case None => 0
    case Some(v) =>
      var m := Trunc(v) % TwoTo32;
      if m >= TwoTo31 then m - TwoTo32 else m
  }

  /** JavaScript's `a / b` on finite operands; division by zero gives an
      infinity or NaN, so None. */
  function Quotient(a: Option<real>, b: Option<real>): (r: Option<real>)
    ensures r.Some? <==> a.Some? && b.Some? && b.value != 0.0
    ensures r.Some? ==> r.value * b.value == a.value
  {
    if a.Some? && b.Some? && b.value != 0.0 then Some(a.value / b.value) else None
  }

  /** `q` is the number of whole `b`s in `a`: q of them fit, q + 1 do not. */
  predicate WholeUnits(q: int, a: real, b: real)
  {
    q as real * b <= a < (q + 1) as real * b
  }

  /** A whole number q with q <= a / b < q + 1 counts the whole `b`s in `a`. */
  lemma WholeMultiples(a: real, b: real, q: int)
    requires 0.0 < b && q as real <= a / b < (q + 1) as real
    ensures WholeUnits(q, a, b)
  {
    var x := a / b;
    assert x * b == a;
    assert (x - q as real) * b >= 0.0;
    assert ((q + 1) as real - x) * b > 0.0;
  }

  /** `(a / b) | 0` for a non-negative `a`, a positive `b` and a quotient
      below 2^31: the number of whole `b`s in `a`. */
  lemma QuotientFloor(a: real, b: real, q: int)
    requires 0.0 <= a && 0.0 < b && a / b < TwoTo31 as real
    requires q == ToInt32(Quotient(Some(a), Some(b)))
    ensures 0 <= q && WholeUnits(q, a, b)
  {
    assert q == Trunc(a / b);
    WholeMultiples(a, b, q);
  }

  /** The text 123.45 converts to the number 123.45. */
  lemma DecimalValueExample()
    ensures ToNumber(Decimal("123", "45")) == Some(123.45)
  {
    assert WholeValue("12") == 12 by { assert "12"[..1] == "1"; }
    assert WholeValue("123") == 123 by { assert "123"[..2] == "12"; }
    assert FracValue("45") == 0.45 by { assert "45"[1..] == "5"; assert "5"[1..] == ""; }
  }

  /** 1000 rupees at a price of 333.33 buy 3 coins. */
  lemma BuyQuantityExample()
    ensures ToInt32(Quotient(Some(1000.0), Some(333.33))) == 3
  {
  }
}
