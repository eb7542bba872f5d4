/** The calculator aborts on the first error it meets; the model returns that
    error as a value instead. */
module Results {

  datatype Option<+T> = None | Some(value: T)

  /** A value or the error that stopped the computation. Failure-compatible,
      so `:-` propagates an error exactly where the calculator aborts. */
  datatype Result<+T, +E> = Ok(value: T) | Err(error: E) {

    predicate IsFailure() {
      Err?
    }

    function PropagateFailure<U>(): Result<U, E>
      requires Err?
    {
      Err(error)
    }

    function Extract(): T
      requires Ok?
    {
      value
    }
  }
}
