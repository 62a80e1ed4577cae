/** Option and Result, the two failure-carrying datatypes the model uses. */
module Wrappers {

  datatype Option<+T> = None | Some(value: T)

  /** The (error, result) pair a completion handler receives: exactly one of the two. */
  datatype Result<+R, +E> = Success(value: R) | Failure(error: E)
}
