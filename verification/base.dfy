/** Failure-carrying values shared by every module of the quiz service model:
    an optional value (a JSON key that may be absent), a result that is either a
    value or a raised exception, and the Python exceptions the service raises. */
module Base {

  /** A value that may be absent, such as an optional key of a JSON object. */
  datatype Option<+T> = None | Some(value: T) {

    /** The value, or `default` when absent, as a dictionary lookup with a
        default does. */
    function GetOr(default: T): T {
      match this
      case Some(v) => v
      case None => default
    }
  }

  /** Either a value or the exception that was raised instead of it. */
  datatype Result<+T, +E> = Ok(value: T) | Err(error: E)

  /** The Python exceptions the modelled code raises, with the message or key
      they carry. `str(e)` of an exception is modelled by the exception itself. */
  datatype PyError =
    | ValueError(message: string)
    | RuntimeError(message: string)
    | KeyError(key: string)
    | NameError(name: string)
    | AttributeError(message: string)
    | IndexError(message: string)
    | ValidationError(field: string)

  function Min(a: int, b: int): int { if a <= b then a else b }

  function Max(a: int, b: int): int { if a >= b then a else b }
}
