/** Failure-compatible wrappers used throughout the checker model. */
module Results {

  /** An optional value. */
  datatype Option<+T> = None | Some(value: T)

  /** Either a value or the first error met; usable with `:-`. */
  datatype Result<+T, +E> = Ok(value: T) | Err(error: E) {

    predicate IsFailure() {
      Err?
    }

    function PropagateFailure<U>(): Result<U, E>
      requires Err?
    {
      Err(error)
    }

    function Extract(): T
      requires Ok?
    {
      value
    }
  }
}
