/**
 * `Math.log` and `Math.sqrt` are not modelled; the model takes them as
 * parameters and assumes only the laws stated here, as preconditions.
 */
module Numerics {

  datatype MathLib = MathLib(log: real -> real, sqrt: real -> real)

  /** The natural logarithm is non-negative from 1 on. */
  ghost predicate LogLaw(log: real -> real) {
    forall x :: x >= 1.0 ==> log(x) >= 0.0
  }

  /** The square root of a non-negative number is a non-negative root of it. */
  ghost predicate SqrtLaw(sqrt: real -> real) {
    forall x :: x >= 0.0 ==> sqrt(x) >= 0.0 && sqrt(x) * sqrt(x) == x
  }

  ghost predicate Lawful(m: MathLib) {
    LogLaw(m.log) && SqrtLaw(m.sqrt)
  }

  lemma SqrtPositive(sqrt: real -> real, x: real)
    requires SqrtLaw(sqrt)
    requires x > 0.0
    ensures sqrt(x) > 0.0
  {
    assert sqrt(x) * sqrt(x) == x;
  }
}
