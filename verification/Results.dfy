/** The outcome of a computation that may fail. */
module Results {
  datatype Result<+T, +E> = Ok(value: T) | Bad(error: E) {
    predicate IsFailure() { Bad? }

    function PropagateFailure<U>(): Result<U, E>
      requires Bad?
    {
      Bad(error)
    }

    function Extract(): T
      requires Ok?
    {
      value
    }
  }
}
