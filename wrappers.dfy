/** Option and Result, the two failure-carrying datatypes the model uses. */
module Wrappers {

  datatype Option<+T> = None | Some(value: T)

  /** A computation that either yields a value or fails with a message-like error. */
  datatype Result<+R, +E> = Success(value: R) | Failure(error: E)
}
