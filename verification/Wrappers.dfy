/** Success-or-failure values shared by every component of the model. */
module Wrappers {

  datatype Option<+T> = None | Some(value: T)

  /** The error kinds of `ferrum-common`; the message text is not modelled. */
  datatype Error = Integrity | Compile | Degraded | Validation

  datatype Result<+T> = Ok(value: T) | Err(error: Error) {

    predicate IsFailure() {
      Err?
    }

    function PropagateFailure<U>(): Result<U>
      requires Err?
    {
      Err(error)
    }

    function Extract(): T
      requires Ok?
    {
      value
    }
  }
}
