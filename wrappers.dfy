/** Optional values and success/failure results, standing in for JavaScript's
    null and thrown errors and for Python's error dictionaries. */
module Wrappers {

  datatype Option<+T> = None | Some(value: T)

  datatype Result<+R, +E> = Success(value: R) | Failure(error: E)
}
