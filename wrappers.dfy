/** Option and Result: the model's stand-ins for Go's nil results and (value, error) pairs. */
module Wrappers {

  /** A value that may be absent (nil, or a false "ok" flag, in Go). */
  datatype Option<+T> = None | Some(value: T)

  /** A value or an error, as a Go function returns `(T, error)`. */
  datatype Result<+T, +E> = Ok(value: T) | Err(error: E)
}
