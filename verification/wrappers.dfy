/** Failure-carrying values used throughout the model. */
module Wrappers {

  /** An optional value: a Go reference that may be nil, or a query parameter that may be absent. */
  datatype Option<+T> = None | Some(value: T)

  /** The outcome of an operation that either produces a value or fails with an error. */
  datatype Result<+R, +E> = Success(value: R) | Failure(error: E)
}
