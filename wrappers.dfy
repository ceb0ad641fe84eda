/** Option and Result values shared by every module of the model. */
module Wrappers {

  /** A value that may be absent; Python's `X | None`. */
  datatype Option<+T> = None | Some(value: T) {
    function GetOr(default: T): T {
      match this
      case Some(v) => v
      case None => default
    }
  }

  /** The outcome of an operation that can raise: the value, or the error it raises. */
  datatype Result<+R, +E> = Success(value: R) | Failure(error: E)
}
