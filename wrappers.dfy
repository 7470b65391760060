/** Option and Result, the failure-carrying wrappers used by every handler. */
module Wrappers {

  /** A value that may be missing: an absent request field, a null timestamp or reference. */
  datatype Option<+T> = None | Some(value: T) {
    function GetOr(default: T): T {
      match this
      case Some(v) => v
      case None => default
    }
  }

  /** The outcome of a handler: a payload, or the error the handler answers with. */
  datatype Result<+R, +E> = Success(value: R) | Failure(error: E)
}
