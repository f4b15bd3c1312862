/** Failure-carrying return values, standing for the exceptions and promise
    rejections of the modelled code. */
module Wrappers {

  datatype Option<+T> = None | Some(value: T)

  /** A value or the error that a call would have thrown. */
  datatype Result<+R, +E> = Success(value: R) | Failure(error: E)

  /** A call that returns nothing useful, or throws. */
  datatype Outcome<+E> = Pass | Fail(error: E)
}
