/** Optional values and results with an error branch, shared by every module. */
module Wrappers {

  /** Python's `Optional[T]`: `None` or a present value. */
  datatype Option<+T> = None | Some(value: T) {
    /** `x or default` for an optional string-like value. */
    function GetOr(default: T): T {
      match this
      case Some(v) => v
      case None => default
    }
  }

  /** A return value or a raised exception. */
  datatype Result<+T, +E> = Ok(value: T) | Err(error: E)
}
