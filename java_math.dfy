/**
 * The Java conversions the keyboard code uses, written out over Dafny's
 * unbounded integers and exact reals: `/` on int truncates toward zero,
 * Math.round(float) rounds half up, and an `(int)` cast of a float truncates
 * toward zero.
 */
module JavaMath {

  /** Java's `a / b` on int for a positive divisor: the quotient truncated toward zero. */
  function Quot(a: int, b: int): (q: int)
    requires b > 0
    ensures a >= 0 ==> 0 <= a - q * b < b
    ensures a < 0 ==> -b < a - q * b <= 0
  {
    if a >= 0 then a / b else -((-a) / b)
  }

  /** Math.round: the nearest integer, halves rounded toward positive infinity. */
  function Round(r: real): (q: int)
    ensures q as real - 0.5 <= r < q as real + 0.5
  {
    (r + 0.5).Floor
  }

  /** Java's `(int)` cast of a floating-point value: truncation toward zero. */
  function TruncToInt(r: real): (q: int)
    ensures r >= 0.0 ==> q as real <= r < q as real + 1.0
    ensures r < 0.0 ==> q as real - 1.0 < r <= q as real
  {
    if r >= 0.0 then r.Floor else -((-r).Floor)
  }

  /** Quot agrees with Dafny's division on non-negative dividends. */
  lemma QuotOfNonNegative(a: int, b: int)
    requires a >= 0 && b > 0
    ensures Quot(a, b) == a / b
  {
  }
}
