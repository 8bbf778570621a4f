/** Failure-carrying values used in place of Python's exceptions and `None`. */
module Outcomes {

  /** A value that may be absent. */
  datatype Option<+T> = None | Some(value: T)

  /** Either a computed value or the error that Python would have raised. */
  datatype Result<+T, +E> = Ok(value: T) | Err(error: E)
}
