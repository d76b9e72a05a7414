/** Failure-compatible wrappers used throughout the gateway model. */
module Wrappers {

  /** An optional value: Rust's `Option`. */
  datatype Option<+T> = None | Some(value: T)

  /** A value or a typed failure: Rust's `Result`, and the stand-in for a panic. */
  datatype Result<+T, +E> = Ok(value: T) | Err(error: E)
}
