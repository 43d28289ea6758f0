/** The two shapes every service call of the backend returns: a lookup that may
    find nothing, and an operation that either succeeds or fails with an error. */
module Wrappers {

  datatype Option<+T> = None | Some(value: T)

  datatype Result<+R, +E> = Success(value: R) | Failure(error: E)
}
