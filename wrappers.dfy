/** Optional values and error-carrying results shared by every module of the model. */
module Wrappers {

  /** A value that may be absent: Python's None, JavaScript's null/undefined. */
  datatype Option<+T> = None | Some(value: T) {
    function GetOr(default: T): T {
      match this
      case Some(v) => v
      case None => default
    }
  }

  /** The outcome of an operation that either produces a value or raises/reports an error. */
  datatype Result<+T, +E> = Ok(value: T) | Err(error: E)
}
