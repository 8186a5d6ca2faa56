/** Option and Result, used for the absent values and the error paths of the model. */
module Wrappers {
  datatype Option<T> = None | Some(value: T)

  /** An operation that the source aborts on (a panic, a failed `expect`) yields `Err`. */
  datatype Result<T, E> = Ok(value: T) | Err(error: E)
}
