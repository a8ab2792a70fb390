/** Optional values and Python-exception results used across the model. */
module Wrappers {

  /** A value that may be absent (Python's `None`). */
  datatype Option<+T> = None | Some(value: T)

  /** A computation that either yields a value or raises the named Python exception. */
  datatype Result<+T> = Ok(value: T) | Err(exception: string)
}
