/** Optional values and results, standing for Python's `None` and for raised exceptions. */
module Wrappers {

  datatype Option<+T> = None | Some(value: T) {
    function GetOr(default: T): T {
      match this
      case Some(v) => v
      case None => default
    }
  }

  /** A computation that either returns a value or raises an exception of the given kind. */
  datatype Result<+T> = Ok(value: T) | Err(error: string)
}
