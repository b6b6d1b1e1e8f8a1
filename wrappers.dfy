/** Option and Result, used for JavaScript's optional properties and for the
    errors that the extension throws and later turns into `{error: message}`
    payloads. */
module Wrappers {

  datatype Option<+T> = None | Some(value: T) {
    function GetOr(default: T): T {
      match this
      case Some(v) => v
      case None => default
    }
  }

  datatype Result<+R, +E> = Ok(value: R) | Err(error: E)
}
