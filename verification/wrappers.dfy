/** Failure-carrying datatypes shared by the whole model. */
module Wrappers {

  /** An optional value: Python's `None` or a present value. */
  datatype Option<+T> = None | Some(value: T)

  /** The outcome of an operation that may raise: a value, or the fault it raised. */
  datatype Result<+T, +E> = Success(value: T) | Failure(error: E)
}
