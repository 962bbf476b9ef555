/** Optional values and results shared by the modules. */
module Wrappers {
  /** A value that may be missing: `null` in JavaScript, `None` in Python. */
  datatype Option<T> = None | Some(value: T)

  /** A computation that either yields a value or reports why it refused. */
  datatype Result<T, E> = Ok(value: T) | Err(error: E)
}
