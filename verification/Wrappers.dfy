module Wrappers {
  datatype Option<+T> = None | Some(value: T)

  /** A Go error return or a thrown JavaScript error. */
  datatype Result<+T, +E> = Ok(value: T) | Err(error: E)
}
