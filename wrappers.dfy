/** Option and Result values for the absent fields and raised exceptions of the backend. */
module Wrappers {

  datatype Option<+T> = None | Some(value: T)

  /** The outcome of an operation that may raise: a value or the exception's message. */
  datatype Result<+R> = Success(value: R) | Failure(error: string)
}
