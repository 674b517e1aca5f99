/** Outcomes of operations that the source ends with a value, an exception or nothing. */
module Wrappers {

  datatype Option<+T> = None | Some(value: T)

  /** A returned value, or the exception that was thrown instead. */
  datatype Result<+T, +E> = Success(value: T) | Failure(error: E) {
    predicate IsFailure() {
      Failure?
    }

    function PropagateFailure<U>(): Result<U, E>
      requires Failure?
    {
      Failure(error)
    }

    function Extract(): T
      requires Success?
    {
      value
    }
  }
}
