/** The optional value and the success-or-error result used across the model. */
module Wrappers {

  /** A present value or nothing (Python's `None`). */
  datatype Option<T> = None | Some(value: T)

  /** A computed value or the error the code raises instead. */
  datatype Result<T, E> = Success(value: T) | Failure(error: E)
}
