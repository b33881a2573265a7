/** Failure-compatible wrappers used across the model: an optional value,
    a value-or-error result, and a pass-or-error outcome. */
module Wrappers {

  datatype Option<+T> = None | Some(value: T) {
    /** The held value, or `default` when there is none. */
    function GetOr(default: T): T {
      match this
      case Some(v) => v
      case None => default
    }
  }

  /** The return of an operation that either yields a value or raises. */
  datatype Result<+R, +E> = Success(value: R) | Failure(error: E)

  /** The return of an operation that yields nothing or raises. */
  datatype Outcome<+E> = Ok | Fail(error: E)
}
