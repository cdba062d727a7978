/** Python's exception kinds, and the Option/Result carriers the model uses in
    place of raising. A Python function that may raise is modelled as a Dafny
    function returning `Result<T>`. */
module Results {

  /** The exceptions the modelled code raises or lets escape. */
  datatype Error =
    | KeyError(key: string)
    | IndexError
    | TypeError(msg: string)
    | ValueError(msg: string)
    | RuntimeError(msg: string)
    | AttributeError(name: string)
    | NameError(name: string)
    | OSError(msg: string)
      /** `shutil.SameFileError`: source and destination are one file. */
    | SameFileError
    | AssertionError
    | ZeroDivisionError
    | ParseError(msg: string)
      /** A bare `Exception` raised with a message. */
    | Exception(msg: string)

  datatype Option<+T> = None | Some(value: T) {
    function GetOr(default: T): T {
      match this
      case Some(v) => v
      case None => default
    }
  }

  datatype Result<+T> = Ok(value: T) | Err(error: Error) {
    predicate IsFailure() {
      Err?
    }

    function PropagateFailure<U>(): Result<U>
      requires Err?
    {
      Err(error)
    }

    function Extract(): T
      requires Ok?
    {
      value
    }
  }
}
