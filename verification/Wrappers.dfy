/** The two failure-carrying shapes every other module uses. */
module Wrappers {

  /** A value that may be absent: the source's `null` or `undefined`. */
  datatype Option<+T> = None | Some(value: T)

  /** The value of a call that may throw. */
  datatype Result<+T, +E> = Success(value: T) | Failure(error: E)
}
