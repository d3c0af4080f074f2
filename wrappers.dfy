/** Option and Result, the two failure-carrying datatypes the model uses for
    Python's `None` and for operations that raise. */
module Wrappers {

  /** A value that may be absent (Python's `None`). */
  datatype Option<+T> = None | Some(value: T)

  /** The outcome of an operation that may raise: its value, or the message of
      the exception it raised. */
  datatype Result<+T, +E> = Success(value: T) | Failure(error: E)
}
