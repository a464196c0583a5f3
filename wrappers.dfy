/** Option and Result types shared by the model, and the Python exceptions the core raises. */
module Wrappers {

  /** Python's `None` or a value. */
  datatype Option<+T> = None | Some(value: T)

  /** The exception classes raised by the core. */
  datatype Error = AssertionError | TypeError | AttributeError

  /** A value, or the exception that was raised instead. */
  datatype Result<+T> = Ok(value: T) | Err(error: Error)
}
