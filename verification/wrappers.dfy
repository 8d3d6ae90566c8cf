/** Failure-carrying wrappers shared by every module of the model. */
module Wrappers {

  /** A value that may be absent: Python's `None`, JavaScript's `undefined`/`null`, a missing row. */
  datatype Option<+T> = None | Some(value: T) {
    function GetOr(default: T): T {
      match this
      case Some(v) => v
      case None => default
    }
  }

  /** The outcome of a computation that may raise instead of returning. */
  datatype Result<+T, +E> = Ok(value: T) | Err(error: E)
}
