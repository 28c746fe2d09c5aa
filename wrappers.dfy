/** Option and Result, the two failure-carrying types the server's Rust code uses. */
module Wrappers {

  datatype Option<+T> = None | Some(value: T)

  /** Rust's `Result<T, E>`: `Ok(v)` on success, `Err(e)` on failure. */
  datatype Result<+T, +E> = Ok(value: T) | Err(error: E)
}
