/** Success/failure carriers used in place of Python's None and exceptions. */
module Wrappers {

  datatype Option<+T> = None | Some(value: T)

  /** A value-carrying result: `Err` stands for an exception the caller sees. */
  datatype Result<+T, +E> = Ok(value: T) | Err(error: E)

  /** A result without a value, for operations that return None in Python. */
  datatype Outcome<+E> = Pass | Fail(error: E)
}
