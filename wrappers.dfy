/** Option and Outcome values used across the model in place of C++ null handles and exceptions. */
module Wrappers {

  datatype Option<+T> = None | Some(value: T)

  /** The result of an operation that either succeeds with a value or fails with an error. */
  datatype Result<+R, +E> = Success(value: R) | Failure(error: E)

  /** The result of an operation that returns nothing but may fail (a C++ `void` that may throw). */
  datatype Outcome<+E> = Pass | Fail(error: E)
}
