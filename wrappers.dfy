/** Optional values and results with an error, as used throughout the model. */
module Wrappers {

  /** A value that may be absent: a null pointer, an empty std::optional or a missing node. */
  datatype Option<+T> = None | Some(value: T) {

    /** std::optional::value_or */
    function GetOr(default: T): T {
      match this
      case Some(v) => v
      case None => default
    }
  }

  /** The outcome of a step that may throw at load time. */
  datatype Result<+T, +E> = Ok(value: T) | Err(error: E) {

    predicate IsFailure() {
      Err?
    }

    function PropagateFailure<U>(): Result<U, E>
      requires Err?
    {
      Err(error)
    }

    function Extract(): T
      requires Ok?
    {
      value
    }
  }
}
