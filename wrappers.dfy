/** Failure-compatible wrappers used to model Python's `None` results and raised exceptions. */
module Wrappers {

  /** A value that may be missing, as BeautifulSoup's `select_one` returns `None` on a miss. */
  datatype Option<+T> = None | Some(value: T)

  /** The outcome of a computation that either returns a value or raises an exception. */
  datatype Result<+T, +E> = Ok(value: T) | Err(error: E) {

    predicate IsFailure() {
      Err?
    }

    function PropagateFailure<U>(): Result<U, E>
      requires Err?
    {
      Err(error)
    }

    function Extract(): T
      requires Ok?
    {
      value
    }
  }
}
