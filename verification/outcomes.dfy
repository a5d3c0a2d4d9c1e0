/** Shared result types: the two Python exceptions the kernel can raise, a
    result that either carries a value or names one of them, and a
    floating-point quantity that is either a finite number or NaN. */
module Outcomes {

  /** The exceptions the computational kernel of app.py can raise. */
  datatype Error =
    | ZeroDivisionError   // float division by 0.0 in estimate_roi
    | ValueError          // int() applied to NaN in the report

  datatype Result<+T> = Ok(value: T) | Err(error: Error)

  /** A float as far as the kernel needs one: exact real arithmetic for finite
      values, and the NaN that NumPy yields for 0 / 0. */
  datatype Number = Finite(value: real) | NaN
}
