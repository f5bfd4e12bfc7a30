/** Option and Result, the failure-carrying values used throughout the model. */
module Wrappers {

  datatype Option<+T> = None | Some(value: T)

  /** Either a value or the reason the computation stopped. */
  datatype Result<+R, +E> = Success(value: R) | Failure(error: E)
}
