/** Failure-carrying datatypes shared by the model. */
module Wrappers {

  /** A value that may be absent: Python's `None` or a value. */
  datatype Option<+T> = None | Some(value: T)

  /** The outcome of an operation that may raise: its value or the error it raised. */
  datatype Result<+R, +E> = Success(value: R) | Failure(error: E)
}
