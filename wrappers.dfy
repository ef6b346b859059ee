/** Option and Result, the two failure-carrying wrappers used across the model. */
module Wrappers {

  datatype Option<+T> = None | Some(value: T) {
    function GetOr(default: T): T {
      match this
      case Some(v) => v
      case None => default
    }
  }

  /** A value or the error that a throwing Swift function would have thrown. */
  datatype Result<+R, +E> = Ok(value: R) | Err(error: E)
}
