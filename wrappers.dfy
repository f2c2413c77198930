/** Option and Result: a null pointer or a value, a thrown error or a value. */
module Wrappers {

  /** A pointer that may be null: `None` is `NULL`/`nullptr`. */
  datatype Option<+T> = None | Some(value: T)

  /** The outcome of a call that may throw: `Err` carries what was thrown. */
  datatype Result<+R, +E> = Ok(value: R) | Err(error: E)
}
