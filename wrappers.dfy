/** Option and Result, and the Python exceptions that the modelled code lets escape. */
module Wrappers {

  datatype Option<+T> = None | Some(value: T) {
    function GetOr(default: T): T {
      match this
      case Some(v) => v
      case None => default
    }
  }

  /** An exception raised by the Python code and not caught by it. */
  datatype Error =
    | KeyError(key: string)            // a dictionary lookup of a missing key
    | ValueError(message: string)      // raised explicitly by the code
    | TypeError(message: string)       // subscripting None, or Path(None)
    | AttributeError(message: string)  // a method called on None

  /** The value a Python function returns, or the exception it raises. */
  datatype Result<+T> = Ok(value: T) | Err(error: Error) {
    predicate IsFailure() {
      Err?
    }

    function PropagateFailure<U>(): Result<U>
      requires Err?
    {
      Err(error)
    }

    function Extract(): T
      requires Ok?
    {
      value
    }
  }
}
