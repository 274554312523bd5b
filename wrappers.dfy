/** Absent values and failures, the two shapes every Java null and exception takes in this model. */
module Wrappers {
  datatype Option<T> = None | Some(value: T)

  datatype Result<T, E> = Ok(value: T) | Err(error: E)
}
