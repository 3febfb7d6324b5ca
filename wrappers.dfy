/** Option and Result, the shapes used for JavaScript's null/undefined and for thrown errors. */
module Wrappers {

  datatype Option<+T> = None | Some(value: T)

  /** `Failure(e)` stands for an exception or error response carrying `e`. */
  datatype Result<+R, +E> = Success(value: R) | Failure(error: E)
}
