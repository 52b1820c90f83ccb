/** Option and Result values standing in for JavaScript's null/undefined and for
    the early-return error paths of the page handlers. */
module Wrappers {

  datatype Option<+T> = None | Some(value: T)

  datatype Result<+R, +E> = Success(value: R) | Failure(error: E)
}
