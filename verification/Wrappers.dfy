/** The two outcome types every other module shares. */
module Wrappers {

  /** An optional value: Python's `T | None`. */
  datatype Option<+T> = None | Some(value: T)

  /** A returned value, or the error that was raised instead of it. */
  datatype Result<+T, +E> = Ok(value: T) | Err(error: E)
}
