/** The datatypes that several components share. */
module Wrappers {

  /** A value that may be absent; stands for the source's nil and for a missing map entry. */
  datatype Option<+T> = None | Some(value: T)

  /** The source's `(value, error)` return pairs. */
  datatype Result<+T, +E> = Ok(value: T) | Err(error: E)
}
