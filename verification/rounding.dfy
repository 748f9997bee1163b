/**
 * Unity's `Mathf.RoundToInt`, which the reference pipeline uses to turn the
 * border slope, a fraction of the image width, into a whole number of
 * pixels. It rounds to the nearest integer and, on a tie, to the even one.
 * The argument is an exact real here; the float product that produces it
 * in the source is not modelled.
 */
module Rounding {

  /** `n` is a nearest integer to `x`, and the even one when `x` lies midway. */
  ghost predicate IsRoundHalfEven(x: real, n: int) {
    && -0.5 <= x - n as real <= 0.5
    && ((x - n as real == 0.5 || n as real - x == 0.5) ==> n % 2 == 0)
  }

  function RoundToInt(x: real): (n: int)
    ensures IsRoundHalfEven(x, n)
  {
    var f := x.Floor;
    var frac := x - f as real;
    if frac < 0.5 then f
    else if frac > 0.5 then f + 1
    else if f % 2 == 0 then f
    else f + 1
  }

  /** At most one integer is a round-half-to-even of `x`. */
  lemma RoundingUnique(x: real, m: int, n: int)
    requires IsRoundHalfEven(x, m) && IsRoundHalfEven(x, n)
    ensures m == n
  {
  }

  /** Rounding is the identity on integers. */
  lemma RoundIntegral(k: int)
    ensures RoundToInt(k as real) == k
  {
    RoundingUnique(k as real, RoundToInt(k as real), k);
  }

  /** Rounding never decreases when its argument grows. */
  lemma RoundMonotonic(x: real, y: real)
    requires x <= y
    ensures RoundToInt(x) <= RoundToInt(y)
  {
  }

  /** A real between zero and `w` rounds to a whole number between zero and `w`, and zero to zero. */
  lemma RoundWithin(x: real, w: nat)
    requires 0.0 <= x <= w as real
    ensures 0 <= RoundToInt(x) <= w
    ensures x == 0.0 ==> RoundToInt(x) == 0
  {
  }
}
