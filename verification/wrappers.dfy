/** Option and Result, the two failure-carrying shapes used throughout the model:
    `Option` stands for an Objective-C object pointer that may be nil, and `Result`
    for a call that either produces a value or reports an error. */
module Wrappers {

  /** A value that may be absent (nil). */
  datatype Option<+T> = None | Some(value: T) {

    /** The carried value, or `default` when absent. */
    function GetOr(default: T): T {
      match this
      case Some(v) => v
      case None => default
    }
  }

  /** The outcome of an operation that can fail. */
  datatype Result<+R, +E> = Success(value: R) | Failure(error: E)
}
