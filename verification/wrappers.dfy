/** Option and Result values shared by every module of the model. */
module Wrappers {
  /** A value that may be absent: JavaScript's `undefined`, Go's nil. */
  datatype Option<+T> = None | Some(value: T)

  /** The outcome of an operation that can throw (TypeScript) or fail (Go). */
  datatype Result<+T> = Ok(value: T) | Err(message: string)
}
