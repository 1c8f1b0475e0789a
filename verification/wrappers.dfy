/** Failure-compatible result types shared by the block and variable models. */
module Wrappers {

  /** A value that may be missing; `None` marks a shape the framework would reject. */
  datatype Option<+T> = None | Some(value: T)

  /** Either a value or the exception the Python code raises. */
  datatype Result<+T, +E> = Success(value: T) | Failure(error: E)
}
