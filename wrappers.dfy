/** Option and Result values used throughout the model. */
module Wrappers {

  datatype Option<+T> = None | Some(value: T) {
    /** The carried value, or `default` when there is none. */
    function GetOr(default: T): T
    {
      match this
      case Some(v) => v
      case None => default
    }
  }

  /** A value, or the error that a request handler raises instead of it. */
  datatype Result<+R, +E> = Ok(value: R) | Err(error: E)
}
