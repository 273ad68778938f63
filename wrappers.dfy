/** The Option and Result datatypes shared by the other modules. */
module Wrappers {

  /** A value that may be absent: the outcome of a foreign parser that can fail. */
  datatype Option<+T> = None | Some(value: T)

  /** A value or an error, for the operations that return Go's `error`. */
  datatype Result<+T, +E> = Success(value: T) | Failure(error: E)
}
