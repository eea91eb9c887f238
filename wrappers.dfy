/** Outcomes of calls that may throw, shared by every module of the model. */
module Wrappers {

  /** A value that may be absent: `undefined` in the application's terms. */
  datatype Option<T> = None | Some(value: T)

  /** What a rejected promise or a thrown exception carries. */
  datatype Error =
    | Thrown(message: string)  // an `Error` object with the given message
    | TypeError                // a property read through `undefined`

  /** The outcome of a call that either returns a value or throws. */
  datatype Result<T> = Ok(value: T) | Err(error: Error) {

    predicate IsFailure() {
      Err?
    }

    function PropagateFailure<U>(): Result<U>
      requires Err?
    {
      Err(error)
    }

    function Extract(): T
      requires Ok?
    {
      value
    }
  }
}
