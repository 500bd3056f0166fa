/** Absent-or-present values and success-or-error results. */
module Wrappers {

  /** A JavaScript value that may be `undefined`, or a field that may be unset. */
  datatype Option<+T> = None | Some(value: T)

  /** The outcome of a check that either accepts its input or reports an error message. */
  datatype Result<+T, +E> = Ok(value: T) | Err(error: E)
}
