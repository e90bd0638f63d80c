/** Failure-compatible wrappers shared by every module of the model. */
module Wrappers {

  /** A value that may be absent; stands for JavaScript's `undefined`. */
  datatype Option<+T> = None | Some(value: T)

  /** The outcome of a call that may throw. */
  datatype Result<+T, +E> = Ok(value: T) | Err(error: E)

  /** The exceptions the scale engine can raise. */
  datatype Failure =
    | MissingIndex   // the constructor's explicit `throw new Error(...)`
    | TypeError      // a property read on `undefined` (an array slot past the end)
}
