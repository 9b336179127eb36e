/** Failure-compatible wrappers shared by the monitor's modules. */
module Wrappers {

  /** A value that may be absent, like a Python field that can be `None`. */
  datatype Option<+T> = None | Some(value: T)

  /** The outcome of a call that either returns a value or raises an error. */
  datatype Result<+T, +E> = Success(value: T) | Failure(error: E)
}
