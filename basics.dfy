/** Option and Result, the failure-carrying wrappers the rest of the model uses. */
module Basics {

  /** `None` stands for JavaScript's `undefined` wherever the source can produce it. */
  datatype Option<+T> = None | Some(value: T)

  /** The outcome of a computation that can throw. */
  datatype Result<+T, +E> = Ok(value: T) | Err(error: E)
}
