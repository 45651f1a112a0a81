/** Optional values and results used across the budget pipeline. */
module Wrappers {

  /** An optional value: a parsed cell that may be missing or unparseable. */
  datatype Option<+T> = None | Some(value: T)

  /** A value or the error that aborted the computation. */
  datatype Result<+R, +E> = Success(value: R) | Failure(error: E)
}
