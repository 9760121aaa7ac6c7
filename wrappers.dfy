/** Failure-compatible wrappers shared by the route handler and the client. */
module Wrappers {

  /** A value that may be missing (JavaScript's `null` / `undefined` where a value was optional). */
  datatype Option<+T> = None | Some(value: T) {
    function GetOr(default: T): T {
      match this
      case Some(v) => v
      case None => default
    }
  }

  /** The outcome of an operation that may throw. */
  datatype Result<+T, +E> = Success(value: T) | Failure(error: E)
}
