/** Optional values and results, in place of Go's nil pointers and (value, error) pairs. */
module Outcomes {

  datatype Option<+T> = None | Some(value: T)

  datatype Result<+T, +E> = Ok(value: T) | Err(error: E)
}
