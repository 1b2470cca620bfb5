/** Failure-carrying wrappers shared by the other modules. */
module Wrappers {

  /** A value that may be absent (a DOM lookup that finds nothing, for one). */
  datatype Option<+T> = None | Some(value: T)

  /** The outcome of an operation that can be refused with a reason. */
  datatype Result<+T, +E> = Success(value: T) | Failure(error: E)
}
