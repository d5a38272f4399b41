/**
 * Python's `round(x, 2)` on amounts. Amounts are modelled as exact reals, so
 * rounding is decimal round-half-to-even of `x * 100`; the binary-float
 * representation of the original is not modelled.
 */
module Rounding {

  /** Nearest integer to `x`, ties to the even neighbour. */
  function RoundHalfEven(x: real): (k: int)
    ensures x - 0.5 <= k as real <= x + 0.5
  {
    var f := x.Floor;
    var d := x - f as real;
    if d < 0.5 then f
    else if d > 0.5 then f + 1
    else if f % 2 == 0 then f
    else f + 1
  }

  /** `round(x, 2)`: the nearest whole number of hundredths (see
      `Round2WholeHundredths`). */
  function Round2(x: real): (r: real)
    ensures x - 0.005 <= r <= x + 0.005
  {
    RoundHalfEven(x * 100.0) as real / 100.0
  }

  /** A whole number of hundredths is left as it is. */
  lemma Round2Hundredths(k: int)
    ensures Round2(k as real / 100.0) == k as real / 100.0
  {
    assert (k as real / 100.0) * 100.0 == k as real;
    assert (k as real).Floor == k;
  }

  /** The result is a whole number of hundredths. */
  lemma Round2WholeHundredths(x: real)
    ensures (Round2(x) * 100.0).Floor as real == Round2(x) * 100.0
  {
    var k := RoundHalfEven(x * 100.0);
    assert Round2(x) * 100.0 == k as real;
  }

  /** Rounding twice is rounding once. */
  lemma Round2Idempotent(x: real)
    ensures Round2(Round2(x)) == Round2(x)
  {
    Round2Hundredths(RoundHalfEven(x * 100.0));
  }

  /** The constants the catalog and the quiz use are already two-decimal values. */
  lemma Round2Constants()
    ensures Round2(1.0) == 1.0 && Round2(1.1) == 1.1 && Round2(1.21) == 1.21
    ensures Round2(25.0) == 25.0 && Round2(15.0) == 15.0
  {
    Round2Hundredths(100);
    Round2Hundredths(110);
    Round2Hundredths(121);
    Round2Hundredths(2500);
    Round2Hundredths(1500);
  }

  /** A value strictly above half a hundredth never rounds to zero. */
  lemma Round2Positive(x: real)
    requires x > 0.005
    ensures Round2(x) >= 0.01
  {
  }
}
