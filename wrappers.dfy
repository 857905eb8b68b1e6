/** Failure-carrying values: Java's `null` results and thrown exceptions become these. */
module Wrappers {

  /** A value or its absence (a Java reference that may be `null`). */
  datatype Option<T> = None | Some(value: T) {
    function GetOr(default: T): T {
      match this
      case Some(v) => v
      case None => default
    }
  }

  /** A value or the error that was raised instead of producing it. */
  datatype Result<T, E> = Success(value: T) | Failure(error: E)
}
