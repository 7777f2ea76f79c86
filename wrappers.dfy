/** Failure-carrying values: an optional value and a value-or-error. */
module Wrappers {

  datatype Option<+T> = None | Some(value: T)

  /** The outcome of a Python call that either returns or raises. */
  datatype Result<+T> = Ok(value: T) | Err(error: string)
}
