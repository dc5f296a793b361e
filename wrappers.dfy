/** Failure-carrying wrappers shared by every module of the model. */
module Wrappers {
  /** A value that may be absent: Go's nil pointer, Python's None. */
  datatype Option<+T> = None | Some(value: T)

  /** A value or an error: Go's `(T, error)` pair, a Python call that may raise. */
  datatype Result<+T, +E> = Ok(value: T) | Err(error: E)

  /** An error-only return: Go's `error`, nil meaning success. */
  datatype Outcome<+E> = Pass | Fail(error: E)
}
