/** Failure-compatible wrappers shared by every module of the model. */
module Wrappers {

  /** An optional value: `None` plays the role of the source's `null`/`undefined`. */
  datatype Option<+T> = None | Some(value: T)

  /** A value or the reason it could not be produced. */
  datatype Result<+T, +E> = Success(value: T) | Failure(error: E)
}
