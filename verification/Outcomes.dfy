/** The two result shapes shared by every module: a value that may be absent, and Go's "value or error" pair. */
module Outcomes {
  datatype Option<+T> = None | Some(value: T)

  datatype Result<+T, +E> = Ok(value: T) | Err(error: E)
}
