// Small shared vocabulary: optional values and the outcome of a call that may raise.
module Wrappers {
  datatype Option<T> = None | Some(value: T)

  /** The outcome of a Python call that either returns a value or raises. */
  datatype Outcome<T> = Ok(value: T) | Raised(error: string)
}
