/** Optional values and results that carry an error, used by every other module. */
module Outcomes {

  datatype Option<+T> = None | Some(value: T)

  /** A value or an error; `:-` stops at the first error. */
  datatype Result<+T, +E> = Ok(value: T) | Err(error: E) {

    predicate IsFailure() {
      Err?
    }

    function PropagateFailure<U>(): Result<U, E>
      requires Err?
    {
      Err(error)
    }

    function Extract(): T
      requires Ok?
    {
      value
    }
  }
}
