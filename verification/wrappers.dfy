/** Option values and the outcome of a Python call that either returns or raises. */
module Wrappers {

  datatype Option<+T> = None | Some(value: T)

  /** The Python exception classes the modelled code raises or catches.
      A pydantic ValidationError is a ValueError. */
  datatype Error =
    | RuntimeError
    | FileNotFoundError
    | ValueError
    | IndexError
    | GenericException

  /** A call that either returns a value or raises one of the exceptions above. */
  datatype Outcome<+T> = Returned(value: T) | Raised(error: Error)
}
