/** Option and Result, the failure-carrying values used throughout the model. */
module Wrappers {

  /** A value that may be absent: `null`, `undefined` or `NaN` in the source. */
  datatype Option<+T> = None | Some(value: T)

  /** A settled promise: resolved with a value or rejected with an error message. */
  datatype Result<+R, +E> = Success(value: R) | Failure(error: E)
}
