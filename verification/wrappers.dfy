/** Failure-carrying wrappers used across the model: a value that may be
    absent (a missing field of a bond record) and a computation that may
    fail (an exception or a loop that never ends in the source). */
module Wrappers {

  /** A possibly missing value; `None` stands for a pandas NaN/NaT field. */
  datatype Option<+T> = None | Some(value: T)

  /** The outcome of a computation that may fail with an error of type `E`. */
  datatype Result<+T, +E> = Ok(value: T) | Err(error: E)
}
