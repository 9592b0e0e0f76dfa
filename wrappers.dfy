/** Option, for Python's `None`-or-value, and Outcome/Result for the exceptions the
    daemon raises and catches. */
module Wrappers {

  datatype Option<+T> = None | Some(value: T)

  /** The result of a call that raises or returns nothing. */
  datatype Outcome<+E> = Pass | Fail(error: E)

  /** The result of a call that raises or returns a value. */
  datatype Result<+R, +E> = Success(value: R) | Failure(error: E)
}
