/** Failure-carrying results used throughout the model in place of Python exceptions. */
module Wrappers {

  datatype Option<+T> = None | Some(value: T)

  /** `Failure(e)` stands for "the Python code raised e". */
  datatype Result<+T, +E> = Success(value: T) | Failure(error: E)
}
