/** Failure-compatible wrappers used throughout the model: Go's nil-able
    values become Option, and Go's `(value, error)` returns become Result. */
module Wrappers {

  datatype Option<+T> = None | Some(value: T)

  datatype Result<+T, +E> = Success(value: T) | Failure(error: E)
}
