/** Failure-carrying results used in place of the source's Effect failures,
    thrown errors and `null`/`undefined` returns. */
module Wrappers {

  datatype Option<+T> = None | Some(value: T)

  datatype Result<+T, +E> = Success(value: T) | Failure(error: E)
}
