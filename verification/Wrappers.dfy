/** Results of operations that may throw, and values that may be undefined. */
module Wrappers {
  datatype Option<+T> = None | Some(value: T)

  datatype Result<+T> = Ok(value: T) | Thrown
}
