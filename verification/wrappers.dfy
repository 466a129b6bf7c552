/** Failure-carrying wrappers used throughout the model. */
module Wrappers {

  /** An optional value: `None` stands for Go's nil pointer or absent result. */
  datatype Option<+T> = None | Some(value: T)

  /** A value or an error, standing for Go's `(T, error)` pair. */
  datatype Result<+T, +E> = Success(value: T) | Failure(error: E)
}
