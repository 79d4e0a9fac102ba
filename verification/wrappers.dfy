/** Failure-carrying values shared by the modules of the live-reload model. */
module Wrappers {

  /** A value that may be absent: a stat or a read that failed is `None`. */
  datatype Option<+T> = None | Some(value: T)

  /** The outcome of an operation that can fail with an error value. */
  datatype Result<+T, +E> = Ok(value: T) | Err(error: E)
}
