/** Option and Result, for the places where the client either finds nothing or raises. */
module Wrappers {

  datatype Option<+T> = None | Some(value: T) {
    /** The value, or `default` when there is none (Python's `dict.get(key, default)`). */
    function GetOr(default: T): T {
      match this
      case Some(v) => v
      case None => default
    }
  }

  /** The value a call returns, or the exception it raises. */
  datatype Result<+R, +E> = Success(value: R) | Failure(error: E)
}
