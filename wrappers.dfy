/** Option and Result: the model's stand-ins for Python's `None` and for raised exceptions. */
module Wrappers {

  datatype Option<+T> = None | Some(value: T)

  /** A value, or the error that stopped its computation; usable with `:-`. */
  datatype Result<+R, +E> = Success(value: R) | Failure(error: E) {

    predicate IsFailure() {
      Failure?
    }

    function PropagateFailure<U>(): Result<U, E>
      requires Failure?
    {
      Failure(error)
    }

    function Extract(): R
      requires Success?
    {
      value
    }
  }
}
