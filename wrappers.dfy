/** Option and Result, the failure-carrying wrappers the rest of the model uses
    for Kotlin's nullable values and for exceptions. */
module Wrappers {

  /** A Kotlin `T?`: either a value or null. */
  datatype Option<+T> = None | Some(value: T)

  /** A call that either returns a value or throws. */
  datatype Result<+T, +E> = Success(value: T) | Failure(error: E)
}
