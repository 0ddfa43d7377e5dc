/** Option and Result, used for the "no face" outcome and for the
    calibration exception. */
module Wrappers {
  datatype Option<+T> = None | Some(value: T)

  datatype Result<+R, +E> = Ok(value: R) | Err(error: E)
}
