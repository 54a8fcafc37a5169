/** Option and Result datatypes used across the model. */
module Wrappers {

  datatype Option<+T> = None | Some(value: T)

  /** Success carries a value; Failure carries the exception that was raised. */
  datatype Result<+R, +E> = Success(value: R) | Failure(error: E)
}
