/** Helper datatypes shared by the rest of the model. */
module Wrappers {

  /** An optional value; also models Python's `None` for a variable that may hold nothing. */
  datatype Option<+T> = None | Some(value: T)

  /** The outcome of an operation that either produces a value or raises an exception. */
  datatype Result<+T, +E> = Success(value: T) | Failure(error: E)
}
