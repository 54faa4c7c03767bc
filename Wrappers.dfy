/** Optional values and results with an error, shared by every module of the model. */
module Wrappers {

  /** A value that may be absent: JavaScript `undefined`/`null`, Python `None`. */
  datatype Option<+T> = None | Some(value: T) {
    function GetOr(default: T): T {
      match this
      case Some(v) => v
      case None => default
    }
  }

  /** The outcome of an operation that can raise or reject. */
  datatype Result<+T, +E> = Ok(value: T) | Err(error: E)
}
