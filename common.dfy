/** Failure-carrying results shared by every module: the Python code raises
    exceptions, which the model returns as `Err` values instead. */
module Common {

  /** The exception kinds the modelled code raises. */
  datatype Error =
    | ValueError(msg: string)
    | KeyError
    | IndexError
    | AssertionError
    | TypeError
    | AttributeError

  datatype Option<+T> = None | Some(value: T)

  datatype Result<+T> = Ok(value: T) | Err(error: Error) {
    predicate IsFailure() { Err? }

    function PropagateFailure<U>(): Result<U>
      requires Err?
    {
      Err(error)
    }

    function Extract(): T
      requires Ok?
    {
      value
    }
  }
}
