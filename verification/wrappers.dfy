/** Optional values and results with an error, as used throughout the model. */
module Wrappers {

  /** A value that may be missing (`undefined` in the source). */
  datatype Option<+T> = None | Some(value: T)

  /** The outcome of an operation that may throw: its value, or the error it throws. */
  datatype Result<+R, +E> = Success(value: R) | Failure(error: E)
}
