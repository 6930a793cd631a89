/** Failure-carrying values used across the model: a Python `None` or a raised
    exception becomes one of these instead of a precondition. */
module Wrappers {

  datatype Option<+T> = None | Some(value: T)

  datatype Result<+R, +E> = Success(value: R) | Failure(error: E) {
    predicate IsFailure() {
      Failure?
    }

    function PropagateFailure<U>(): Result<U, E>
      requires Failure?
    {
      Failure(error)
    }

    function Extract(): R
      requires Success?
    {
      value
    }
  }

  /** A step that returns nothing but may raise. */
  datatype Outcome<+E> = Pass | Fail(error: E)
}
