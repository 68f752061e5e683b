/** Failure-carrying results shared by every module of the model. */
module Wrappers {

  datatype Option<+T> = None | Some(value: T) {
    function GetOr(default: T): T {
      match this
      case Some(v) => v
      case None => default
    }
  }

  /** A value, or the error that stopped the computation. */
  datatype Result<+R, +E> = Success(value: R) | Failure(error: E)

  /** Success without a value, or the error that stopped the computation. */
  datatype Outcome<+E> = Pass | Fail(error: E)
}
