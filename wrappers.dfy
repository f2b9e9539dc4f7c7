/** Failure-compatible wrappers used across the model: Kotlin's nullable
    values become Option, and validations that either build a value or
    report a message become Result. */
module Wrappers {

  datatype Option<+T> = None | Some(value: T)

  datatype Result<+T, +E> = Success(value: T) | Failure(error: E)
}
