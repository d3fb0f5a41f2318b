/** Option and Result, the two failure-carrying shapes used across the model. */
module Wrappers {

  /** A value that may be absent: JavaScript's `undefined` is `None`. */
  datatype Option<+T> = None | Some(value: T) {
    function GetOr(default: T): T {
      match this
      case Some(v) => v
      case None => default
    }
  }

  /** The outcome of an operation that may throw: `Err` carries what was thrown. */
  datatype Result<+T, +E> = Ok(value: T) | Err(error: E)
}
