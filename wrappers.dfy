/** Failure-compatible wrappers shared by every module of the model. */
module Wrappers {

  /** A value that may be absent (JavaScript's `undefined` where the source uses it as "no value"). */
  datatype Option<+T> = None | Some(value: T)

  /** The outcome of an operation that may throw or reject with an error message. */
  datatype Result<+T, +E> = Success(value: T) | Failure(error: E)
}
