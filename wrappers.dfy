/** Option and Result, the two failure-carrying shapes the model needs. */
module Wrappers {

  /** A value that may be absent (a missing row, an unparseable field). */
  datatype Option<+T> = None | Some(value: T) {
    function GetOr(default: T): T {
      match this
      case Some(v) => v
      case None => default
    }
  }

  /** The outcome of an operation that is either done or refused with a reason. */
  datatype Result<+T, +E> = Ok(value: T) | Err(error: E)
}
