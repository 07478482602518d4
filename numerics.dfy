/**
 Numeric vocabulary shared by the equation builder, the curve sampler and the
 validator of the cycloidal disk generator. Floating-point values are modelled
 as mathematical reals.
 */
module Numerics {

  /** The outcome of an operation that divides by `e * N`: Python raises
      ZeroDivisionError when that product is zero. */
  datatype Result<T> = Ok(value: T) | ZeroDivisionError

  function Abs(x: real): (a: real)
    ensures a >= 0.0 && (a == x || a == -x)
  {
    if x < 0.0 then -x else x
  }

  /** The closed test `-1.0 <= x <= 1.0` used both by the validator's
      warning and by the sampler's diagnostics. */
  predicate InUnitInterval(x: real) {
    -1.0 <= x <= 1.0
  }

  /** The ratio R_p / (e * N) that both the equation text and the sampler use. */
  function Ratio(rp: real, e: real, n: real): (q: real)
    requires e * n != 0.0
    ensures q * (e * n) == rp
  {
    rp / (e * n)
  }
}
