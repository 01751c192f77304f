/** Failure-carrying datatypes shared by every component of the pipeline model. */
module Wrappers {

  /** An optional value (Rust's `Option`). */
  datatype Option<+T> = None | Some(value: T)

  /** A value or an error (Rust's `Result`, a Java call that may throw). */
  datatype Result<+T, +E> = Success(value: T) | Failure(error: E)
}
