/** Option and Result, the stand-ins for Python's `None` and for a raised exception. */
module Wrappers {

  /** A value that may be missing, as a JSON field that was not sent or was `null`. */
  datatype Option<+T> = None | Some(value: T)

  /** Either a value or the reason the computation stopped. */
  datatype Result<+T, +E> = Ok(value: T) | Err(error: E)
}
