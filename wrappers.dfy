/** Optional values and results with an error, shared by every module of the model. */
module Wrappers {

  /** A value that may be absent: `null`/`undefined` in the extension. */
  datatype Option<+T> = None | Some(value: T)

  /** The outcome of a step that may throw. */
  datatype Result<+R, +E> = Success(value: R) | Failure(error: E)
}
