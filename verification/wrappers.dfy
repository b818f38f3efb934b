/** Failure-compatible wrappers used across the model. */
module Wrappers {

  /** Go's nil-or-value: `None` stands for nil. */
  datatype Option<+T> = None | Some(value: T)

  /** A value or the error a Go function returns beside it. */
  datatype Result<+T, +E> = Success(value: T) | Failure(error: E)
}
