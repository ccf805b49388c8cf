/** Python exceptions raised by the library, modelled as error values. */
module Wrappers {

  /** The exception classes the library raises (or lets propagate). */
  datatype Error =
    | ValueError(message: string)
    | TypeError(message: string)
    | IndexError(message: string)

  datatype Option<T> = None | Some(value: T)

  /** The outcome of a call that either returns a value or raises. */
  datatype Result<T> = Ok(value: T) | Err(error: Error) {
    predicate IsFailure() { Err? }
    function PropagateFailure<U>(): Result<U>
      requires Err?
    {
      Err(error)
    }
    function Extract(): T
      requires Ok?
    {
      value
    }
  }

  /** The outcome of a call that returns nothing or raises. */
  datatype Outcome = Pass | Fail(error: Error)
}
