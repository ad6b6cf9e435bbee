/** Outcomes of the modelled Python code: a value that may be absent (an
    attribute still set to `None`) and a computation that either produced a
    value or raised. A `Result` works with `:-`, so a read that raises ends
    the enclosing computation with the same error. */
module Results {

  datatype Option<+T> = None | Some(value: T)

  datatype Result<+R, +E> = Success(value: R) | Failure(error: E) {

    predicate IsFailure() {
      Failure?
    }

    /** The raised error, carried over to a computation of another type. */
    function PropagateFailure<U>(): Result<U, E>
      requires Failure?
    {
      Failure(error)
    }

    function Extract(): R
      requires Success?
    {
      value
    }
  }
}
