/** Optional values and failure-compatible results, used for Python's `None`
    and for the exceptions the manifest builder can raise. */
module Wrappers {

  datatype Option<+T> = None | Some(value: T)

  /** Either a value or the error that stopped the computation; usable with `:-`. */
  datatype Result<+T, +E> = Ok(value: T) | Err(error: E) {

    predicate IsFailure() {
      Err?
    }

    function PropagateFailure<U>(): Result<U, E>
      requires Err?
    {
      Err(error)
    }

    function Extract(): T
      requires Ok?
    {
      value
    }
  }
}
