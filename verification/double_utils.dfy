/**
 * Absolute-tolerance comparison of quantities (double_utils.h).
 * Doubles are modelled as mathematical reals, so the comparison is exact
 * here and the tolerance only matters at its boundary.
 */
module DoubleUtils {

  /** The default tolerance, 1e-9. */
  const TOLERANCE: real := 0.000000001

  function Abs(x: real): (r: real)
    ensures r >= 0.0
    ensures r == x || r == -x
  {
    if x < 0.0 then -x else x
  }

  /** `a` and `b` count as equal when they are at most `tolerance` apart. */
  function DoubleEquals(a: real, b: real, tolerance: real := TOLERANCE): (r: bool)
    ensures r <==> b - tolerance <= a <= b + tolerance
  {
    Abs(a - b) <= tolerance
  }

  lemma DoubleEqualsReflexive(a: real, tolerance: real)
    requires tolerance >= 0.0
    ensures DoubleEquals(a, a, tolerance)
  {
  }

  lemma DoubleEqualsSymmetric(a: real, b: real, tolerance: real)
    ensures DoubleEquals(a, b, tolerance) == DoubleEquals(b, a, tolerance)
  {
  }

  /** Widening the tolerance never turns an equality into an inequality. */
  lemma DoubleEqualsMonotone(a: real, b: real, tolerance: real, wider: real)
    requires tolerance <= wider
    requires DoubleEquals(a, b, tolerance)
    ensures DoubleEquals(a, b, wider)
  {
  }
}
