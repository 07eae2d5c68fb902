/** The Option and Result wrappers used throughout the model. */
module Wrappers {

  /** An optional value: Go's nil-able pointers, maps and `error` values. */
  datatype Option<+T> = None | Some(value: T)

  /** A value or an error. */
  datatype Result<+R, +E> = Success(value: R) | Failure(error: E)
}
