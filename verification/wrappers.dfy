/** Failure-carrying result types shared by the session manager and the responder. */
module Wrappers {

  /** An optional value, standing for JavaScript's `undefined`/`null` results. */
  datatype Option<+T> = None | Some(value: T)

  /** Either a value or the error an operation raises instead of returning. */
  datatype Result<+R, +E> = Success(value: R) | Failure(error: E)
}
