/** Option and Result: the model's stand-ins for Python's None and for raised exceptions. */
module Wrappers {

  /** A Python value that may be None. */
  datatype Option<+T> = None | Some(value: T)

  /** The outcome of a call that either returns a value or raises an error. */
  datatype Result<+T, +E> = Ok(value: T) | Err(error: E)

  function Max(a: int, b: int): int
  {
    if a < b then b else a
  }

  function MaxReal(a: real, b: real): real
  {
    if a < b then b else a
  }
}
