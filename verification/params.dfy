/** Fixed simulation constants of the sketch, and the two quantities the model
    takes as parameters instead of computing them: the friction factor
    (0.5 raised to dt / frictionHL, an irrational number) and the square root. */
module SimParams {

  /** Time step. */
  const Dt: real := 0.0001

  /** Interaction radius: pairs at distance rMax or more do not interact. */
  const RMax: real := 0.3

  /** Scale applied to the accumulated acceleration, together with RMax. */
  const ForceFactor: real := 10.0

  /** Slack added around the wrap bounds of pass 2. */
  const Offset: real := 0.05

  /** A coordinate below this value is wrapped upwards. */
  const WrapLow: real := -1.0 - Offset

  /** A coordinate above this value is wrapped downwards. */
  const WrapHigh: real := 2.0 + Offset

  /** The amount a wrap adds or subtracts. */
  const WrapWidth: real := 2.0 + 2.0 * Offset

  /** The friction factor is a per-step decay strictly between 0 and 1. */
  predicate ValidFriction(f: real) {
    0.0 < f < 1.0
  }

  /** `sqrt` behaves as the non-negative square root on non-negative inputs. */
  ghost predicate IsSqrt(sqrt: real -> real) {
    forall x :: 0.0 <= x ==> 0.0 <= sqrt(x) && sqrt(x) * sqrt(x) == x
  }
}
