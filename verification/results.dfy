/** Option and Result types. A Result supports the `:-` operator, so a step
    that fails ends the enclosing computation with its error, the way a Python
    exception leaves every loop it is raised in. */
module Results {

  /** A value that may be absent, as Python's `None` marks a missing entry. */
  datatype Option<+T> = None | Some(value: T) {

    /** The value if present, otherwise `default`. */
    function GetOr(default: T): T {
      match this
      case Some(v) => v
      case None => default
    }
  }

  /** The outcome of a computation that may raise. */
  datatype Result<+T, +E> = Ok(value: T) | Err(error: E) {

    predicate IsFailure() {
      Err?
    }

    function PropagateFailure<U>(): Result<U, E>
      requires Err?
    {
      Err(error)
    }

    function Extract(): T
      requires Ok?
    {
      value
    }
  }
}
