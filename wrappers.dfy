/** Option and Result, the two failure-carrying datatypes used throughout the model. */
module Wrappers {

  /** `None` stands for JavaScript's `null`/`undefined` or, for parsed numbers, `NaN`. */
  datatype Option<+T> = None | Some(value: T) {
    function GetOr(default: T): T {
      match this
      case Some(v) => v
      case None => default
    }
  }

  datatype Result<+T, +E> = Success(value: T) | Failure(error: E)
}
