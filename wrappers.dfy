/** Option and Result: the model's stand-ins for NULL pointers, NUL characters and `die`. */
module Wrappers {

  /** `None` plays the part of a NULL pointer or a NUL character meaning "not given". */
  datatype Option<+T> = None | Some(value: T)

  /** A computation that either succeeds or stops with a diagnostic. */
  datatype Result<+T, +E> = Ok(value: T) | Err(error: E)
}
