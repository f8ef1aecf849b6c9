/** Failure-carrying result types shared by the other modules. */
module Wrappers {

  datatype Option<+T> = None | Some(value: T)

  /** A value or the error that replaced it (Go's `(T, error)` pair when the
      value is irrelevant on failure). */
  datatype Result<+T, +E> = Ok(value: T) | Err(error: E)

  /** Go's lone `error` return: nil or an error. */
  datatype Outcome<+E> = Pass | Fail(error: E)
}
