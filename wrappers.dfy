/** Optional values and success-or-error results, standing for Go's nil pointers and
    `(value, error)` return pairs. */
module Wrappers {

  datatype Option<+T> = None | Some(value: T)

  datatype Result<+R, +E> = Success(value: R) | Failure(error: E)
}
