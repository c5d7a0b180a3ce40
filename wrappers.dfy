/** Small failure-compatible wrappers used across the model. */
module Wrappers {

  /** An optional value; `None` stands for a .NET `null` wherever the source accepts one. */
  datatype Option<+T> = None | Some(value: T) {
    function GetOr(default: T): T {
      match this
      case Some(v) => v
      case None => default
    }
  }

  /** The outcome of a call that either completes or throws. */
  datatype Outcome<+E> = Pass | Fail(error: E)

  /** A value or the error that was thrown instead. */
  datatype Result<+T, +E> = Ok(value: T) | Err(error: E)
}
