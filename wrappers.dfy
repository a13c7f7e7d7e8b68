/** Option and Result, the two failure shapes the rest of the model uses. */
module Wrappers {
  /** A value that may be absent (a Go nil pointer, a missing map entry). */
  datatype Option<+T> = None | Some(value: T)

  /** A value or the error that replaced it (Go's `(T, error)` pair). */
  datatype Result<+T, +E> = Ok(value: T) | Err(error: E)
}
