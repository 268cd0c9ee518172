/** Optional values and the outcome of Python code that may raise. */
module Wrappers {

  datatype Option<+T> = None | Some(value: T)

  /** The Python exceptions the modelled code raises and does not catch. */
  datatype PyError = ValueError | TypeError | IndexError

  /** Either the value a Python expression returns or the exception it raises. */
  datatype Result<+T> = Ok(value: T) | Err(error: PyError)
}
