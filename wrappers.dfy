/** Option and Result values used for the error paths of the model. */
module Wrappers {

  datatype Option<+T> = None | Some(value: T)

  /** A value, or the error an argument-type check raises instead. */
  datatype Result<+T, +E> = Success(value: T) | Failure(error: E)
}
