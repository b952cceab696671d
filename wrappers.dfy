/** Optional values and results with an error, used wherever the source returns
    `null`/`undefined` or throws. */
module Wrappers {

  /** `None` stands for JavaScript's `null`/`undefined` (or NaN, where a parse fails). */
  datatype Option<+T> = None | Some(value: T)

  /** The outcome of a computation that may throw. */
  datatype Result<+R, +E> = Success(value: R) | Failure(error: E)
}
