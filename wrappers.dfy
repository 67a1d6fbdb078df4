/** Failure-carrying values shared by every module of the model.
    A Python call that raises is modelled as a `Raise` of the exception's class. */
module Wrappers {

  datatype Option<+T> = None | Some(value: T)

  /** The Python exception classes the modelled code raises. */
  datatype Error =
    | ValueError
    | KeyError
    | IndexError
    | TypeError
    | AttributeError
    | AssertionError
    | UnboundLocalError
    | TimeoutError

  /** Either the value a Python call returns or the exception it raises. */
  datatype Result<+T> = Ok(value: T) | Raise(error: Error)
}
