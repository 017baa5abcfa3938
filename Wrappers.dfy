/** Optional and fallible results shared by every module of the model. */
module Wrappers {

  /** A value that may be absent: JavaScript's `undefined` / `null`. */
  datatype Option<+T> = None | Some(value: T) {
    function GetOr(default: T): T {
      match this
      case Some(v) => v
      case None => default
    }
  }

  /** A computation that may throw: `Err` carries the name of the JavaScript error. */
  datatype Result<+T> = Ok(value: T) | Err(error: string)
}
