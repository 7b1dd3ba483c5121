/** Optional values and success/failure results, standing in for Python's
    `None` returns and raised exceptions. */
module Wrappers {

  /** A value that may be absent (Python's `x | None`). */
  datatype Option<+T> = None | Some(value: T)

  /** A computation that either returns a value or raises an error. */
  datatype Result<+T, +E> = Ok(value: T) | Err(error: E)
}
