/** Option and Result values shared by the modules of the model. */
module Wrappers {

  /** A value that may be missing: Python's `None` or a falsy "not found". */
  datatype Option<+T> = None | Some(value: T)

  /** The outcome of a step that may raise: `Failure` carries what was raised. */
  datatype Result<+R, +E> = Success(value: R) | Failure(error: E)
}
