/** Failure-carrying wrappers used where the source catches an exception or looks up a
    key that may be missing. */
module Wrappers {

  /** `None` stands for a missing value or an external call that raised. */
  datatype Option<+T> = None | Some(value: T) {
    function GetOr(default: T): T {
      match this
      case Some(v) => v
      case None => default
    }
  }

  /** `Err` stands for an exception that the source lets propagate to its caller. */
  datatype Result<+T, +E> = Ok(value: T) | Err(error: E)
}
