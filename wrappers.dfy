/** Option and Result: how the model writes JavaScript's `undefined` results and thrown errors. */
module Wrappers {

  /** A value that may be absent (`undefined` / `null` in the source). */
  datatype Option<+T> = None | Some(value: T)

  /** Either a result or the error the source would throw. */
  datatype Result<+T, +E> = Ok(value: T) | Err(error: E)
}
