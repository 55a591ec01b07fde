/** Optional values and results with an error, for the source's `null`/`undefined`
    values and its error returns. */
module Wrappers {

  datatype Option<+T> = None | Some(value: T)

  datatype Result<+T, +E> = Success(value: T) | Failure(error: E)
}
