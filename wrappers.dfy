/** Optional values and value-or-error results, the Dafny form of Go's nil
    pointers and (value, error) pairs. */
module Wrappers {

  /** A value that may be absent (a nil pointer, an unset error). */
  datatype Option<+T> = None | Some(value: T)

  /** A value, or the text of the error Go would return beside it. */
  datatype Result<+T> = Ok(value: T) | Err(error: string)
}
