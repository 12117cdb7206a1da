// Option and Result values shared by every module of the model.

module Wrappers {

  datatype Option<T> = None | Some(value: T)
  {
    function GetOr(default: T): T
    {
      match this
      case None => default
      case Some(v) => v
    }
  }

  /** An operation that either produced a value or raised an exception of kind E. */
  datatype Result<T, E> = Ok(value: T) | Err(error: E)

  /** An operation with no value that either completed or raised an exception of kind E. */
  datatype Outcome<E> = Done | Fail(error: E)
}
