/** Small failure-carrying datatypes shared by the other modules. */
module Wrappers {

  /** A value that may be absent (a JavaScript property that was never set). */
  datatype Option<+T> = None | Some(value: T)

  /** The outcome of an operation that either yields a value or reports an error message. */
  datatype Result<+T, +E> = Ok(value: T) | Err(error: E)
}
