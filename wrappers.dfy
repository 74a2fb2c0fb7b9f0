/** Optional values and error returns used across the model. */
module Wrappers {

  /** A value that may be absent (Python's `None`). */
  datatype Option<+T> = None | Some(value: T)

  /** The outcome of an endpoint: a report, or the error message it answers with. */
  datatype Result<+T> = Ok(value: T) | Err(error: string)
}
