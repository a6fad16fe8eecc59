/** Optional values, and results that may carry an error instead. */
module Wrappers {

  datatype Option<+T> = None | Some(value: T)

  /** A value or an error; usable with the `:-` operator. */
  datatype Result<+T, +E> = Ok(value: T) | Err(error: E) {
    predicate IsFailure() {
      Err?
    }

    function PropagateFailure<U>(): Result<U, E>
      requires Err?
    {
      Err(error)
    }

    function Extract(): T
      requires Ok?
    {
      value
    }
  }
}
