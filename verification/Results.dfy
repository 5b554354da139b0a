/** Failure-compatible result types shared by all modules. */
module Results {
  datatype Option<+T> = None | Some(value: T)

  /** A Go pair (value, error): either the value or the error is meaningful. */
  datatype Result<+T, +E> = Ok(value: T) | Err(error: E) {
    predicate IsFailure() {
      Err?
    }

    function PropagateFailure<U>(): Result<U, E>
      requires Err?
    {
      Err(error)
    }

    function Extract(): T
      requires Ok?
    {
      value
    }
  }
}
