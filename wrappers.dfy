/** Failure-carrying values shared by the whole model. */
module Wrappers {

  datatype Option<+T> = None | Some(value: T)

  /** The outcome of a store or service call: a value, or the error Go would return. */
  datatype Result<+T, +E> = Success(value: T) | Failure(error: E)
}
