/**
 * The arithmetic of JavaScript numbers that the handler relies on:
 * `Math.round` and the decimal rendering of integers by `Number::toString`.
 * Numbers are exact reals here; IEEE-754 rounding error is not modelled.
 */
module JsNumber {

  /** An IEEE-754 double as the handler sees it. Both zeros are `Finite(0.0)`. */
  datatype Number = NaN | Infinity(negative: bool) | Finite(value: real)

  /** `Math.round`: the nearest integer, halves rounded towards +infinity. */
  function Round(x: real): (r: int)
    ensures r as real - 0.5 <= x < r as real + 0.5
  {
    (x + 0.5).Floor
  }

  lemma RoundMonotonic(x: real, y: real)
    requires x <= y
    ensures Round(x) <= Round(y)
  {
  }

  /** `Math.round(x / 5) * 5`: the multiple of 5 nearest to x, halves rounded up. */
  function RoundToFive(x: real): (r: int)
    ensures r % 5 == 0
    ensures r as real - 2.5 <= x < r as real + 2.5
  {
    Round(x / 5.0) * 5
  }

  predicate IsDigit(c: char) {
    '0' <= c <= '9'
  }

  function DigitChar(d: nat): (c: char)
    requires d < 10
    ensures IsDigit(c) && c as int - '0' as int == d
  {
    (('0' as int) + d) as char
  }

  function DigitValue(c: char): nat
    requires IsDigit(c)
  {
    c as int - '0' as int
  }

  /** The value of a string of decimal digits (the inverse of NatToDecimal). */
  function DecimalValue(s: string): nat
    requires forall i :: 0 <= i < |s| ==> IsDigit(s[i])
  {
    if s == [] then 0
    else DecimalValue(s[..|s| - 1]) * 10 + DigitValue(s[|s| - 1])
  }

  /** Decimal digits of n, most significant first, without leading zeros. */
  function NatToDecimal(n: nat): (r: string)
    ensures |r| >= 1
    ensures forall i :: 0 <= i < |r| ==> IsDigit(r[i])
    ensures r[0] == '0' ==> n == 0
  {
    if n < 10 then [DigitChar(n)] else NatToDecimal(n / 10) + [DigitChar(n % 10)]
  }

  lemma {:induction false} DecimalRoundTrip(n: nat)
    ensures DecimalValue(NatToDecimal(n)) == n
  {
    if n >= 10 {
      var r := NatToDecimal(n);
      assert r[..|r| - 1] == NatToDecimal(n / 10);
      DecimalRoundTrip(n / 10);
    }
  }

  /** `String(i)` for an integer i with |i| < 10^21: an optional minus sign and its digits. */
  function IntToDecimal(i: int): (r: string)
    ensures i >= 0 ==> r == NatToDecimal(i)
    ensures i < 0 ==> r == "-" + NatToDecimal(-i)
  {
    if i < 0 then "-" + NatToDecimal(-i) else NatToDecimal(i)
  }

  /** Decimal rendering is injective, so distinct integers print differently. */
  lemma IntToDecimalInjective(i: int, j: int)
    requires IntToDecimal(i) == IntToDecimal(j)
    ensures i == j
  {
    if i >= 0 && j >= 0 {
      DecimalRoundTrip(i);
      DecimalRoundTrip(j);
    } else if i < 0 && j < 0 {
      var si, sj := NatToDecimal(-i), NatToDecimal(-j);
      assert si == IntToDecimal(i)[1..] == IntToDecimal(j)[1..] == sj;
      DecimalRoundTrip(-i);
      DecimalRoundTrip(-j);
    }
  }
}
