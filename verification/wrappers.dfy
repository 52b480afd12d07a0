/** Option and Result, the shapes used for absent values and for the errors the source raises. */
module Wrappers {

  datatype Option<+T> = None | Some(value: T) {
    /** The supplied value, or `default` when absent (Python's `dict.get(key, default)`). */
    function GetOr(default: T): T {
      match this
      case Some(v) => v
      case None => default
    }
  }

  datatype Result<+R, +E> = Success(value: R) | Failure(error: E)

  /** A check that either passes or fails with an error, without a value. */
  datatype Outcome<+E> = Pass | Fail(error: E)
}
