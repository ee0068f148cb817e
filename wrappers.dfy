/** Optional values and results shared by every component of the model. */
module Wrappers {
  datatype Option<T> = None | Some(value: T)

  /** An error as the engine reports it to the caller: an HTTP status and a message. */
  datatype Error = Error(status: int, message: string)

  datatype Result<T> = Ok(value: T) | Err(error: Error)
  {
    predicate IsFailure() { Err? }

    function PropagateFailure<U>(): Result<U>
      requires Err?
    {
      Err(error)
    }

    function Extract(): T
      requires Ok?
    {
      value
    }
  }
}
