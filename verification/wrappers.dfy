/** Optional values and fallible results, used wherever the Python code
    returns None or raises. */
module Wrappers {

  datatype Option<+T> = None | Some(value: T)

  /** The outcome of an operation that either succeeds with a value or
      raises an exception described by `error`. */
  datatype Result<+R, +E> = Ok(value: R) | Err(error: E)
}
