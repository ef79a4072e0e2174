/** Optional values and results with an error, used for SQL NULLs, failed
    lookups and errors raised by the database driver. */
module Wrappers {

  datatype Option<+T> = None | Some(value: T)

  datatype Result<+R, +E> = Success(value: R) | Failure(error: E)
}
