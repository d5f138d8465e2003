/**
 * The numeric constants every scale of the design system is built from.
 * Their definitions are not part of this model, so they are declared
 * without a value: every property proved here holds whatever they are.
 */
module Scale {

  /** The base size of the spacing and typography scales. */
  const BASE_SIZE: real

  /** The ratio between two neighbouring levels of a scale. */
  const GOLDEN_RATIO: real

  /** The opacity `TRSColor.opacity()` applies when called without an argument. */
  const BASE_OPACITY: real

  /**
   * Real exponentiation, as far as this model relies on it: raising any
   * base to the power zero gives one. Nothing else is known about it.
   */
  type PowFunction = f: (real, real) -> real | forall b: real :: f(b, 0.0) == 1.0
    witness (b: real, e: real) => 1.0

  /** `pow(base, exponent)` of the host's math library. */
  const Pow: PowFunction

  /**
   * A level of a geometric scale rooted at `base`: `base * ratio^level`.
   * Level zero is the base itself.
   */
  function ScaleValue(base: real, level: real): (v: real)
    ensures level == 0.0 ==> v == base
  {
    base * Pow(GOLDEN_RATIO, level)
  }
}
