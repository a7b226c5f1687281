/** Failure-carrying wrappers shared by the model. */
module Outcomes {

  /** Rust's `Option`: a value that may be absent. */
  datatype Option<+T> = None | Some(value: T)

  /** A computation that either produces a value or stops with an error,
      used where the Rust code would panic. */
  datatype Result<+T, +E> = Ok(value: T) | Err(error: E)

  /** A Rust panic: indexing a vector past its end (the only one modelled). */
  datatype Panic = IndexOutOfBounds(index: nat)
}
