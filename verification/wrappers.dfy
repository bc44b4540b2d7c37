/** Failure-compatible wrappers shared by every module of the interpreter model. */
module Wrappers {

  /** A value that may be absent; `None` also stands for Go's nil where a pointer or
      interface may be nil. */
  datatype Option<+T> = None | Some(value: T) {
    function GetOr(default: T): T {
      match this
      case Some(v) => v
      case None => default
    }
  }

  /** Either a value or a failure description. */
  datatype Result<+R, +E> = Success(value: R) | Failure(error: E)
}
