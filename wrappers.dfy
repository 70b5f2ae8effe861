/** Option and Result, the failure-carrying values used across the model. */
module Wrappers {

  /** A value that may be absent (Python's `None`). */
  datatype Option<+T> = None | Some(value: T) {
    function GetOr(default: T): T {
      match this
      case Some(v) => v
      case None => default
    }
  }

  /** The outcome of a request handler: a reply or an error response. */
  datatype Result<+R, +E> = Success(value: R) | Failure(error: E)
}
