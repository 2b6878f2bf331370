/** Option and Result: how the model writes Go's nil pointers and (value, error) pairs. */
module Wrappers {

  /** A value that may be missing: a Go pointer that may be nil. */
  datatype Option<+T> = None | Some(value: T) {
    function GetOr(default: T): T {
      match this
      case Some(v) => v
      case None => default
    }
  }

  /** The outcome of a Go call returning (value, error): either the value or the error. */
  datatype Result<+R, +E> = Success(value: R) | Failure(error: E) {
    /** The rows a failing repository call hands back: Go returns nil with every error. */
    function ValuesOr(default: R): R {
      match this
      case Success(v) => v
      case Failure(_) => default
    }
  }
}
