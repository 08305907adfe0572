/** Optional values and fallible results, standing for Go's nil pointers and (value, error) pairs. */
module Wrappers {

  /** A Go pointer that may be nil. */
  datatype Option<+T> = None | Some(value: T)

  /** A Go (value, error) pair: either a value or the error's message. */
  datatype Result<+T> = Ok(value: T) | Err(msg: string)
}
