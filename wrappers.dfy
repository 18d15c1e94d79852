/** Error kinds and result wrappers shared by every module of the model. */
module Wrappers {
  /** The Python exception classes the modelled code raises. */
  datatype Error =
    | ValueError
    | TypeError
    | NotImplementedError
    | IndexError
    | AttributeError
    | AssertionError
    | NameError

  datatype Option<T> = None | Some(value: T)
  {
    function GetOr(default: T): T
    {
      match this
      case None => default
      case Some(v) => v
    }
  }

  /** A computation that returns a value or raises. */
  datatype Result<T> = Ok(value: T) | Err(error: Error)

  /** A check that passes or raises. */
  datatype Outcome = Pass | Fail(error: Error)
}
