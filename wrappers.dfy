/** Option and Result values standing in for Python's `None` returns and raised exceptions. */
module Wrappers {

  datatype Option<+T> = None | Some(value: T)

  datatype Result<+T, +E> = Ok(value: T) | Err(error: E)

  /** A result that carries no value, for operations that return `None` or raise. */
  datatype Outcome<+E> = Pass | Fail(error: E)
}
