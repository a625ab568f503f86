/** Failure-carrying values shared by every module: Python's `None` and the
    exceptions the modelled code raises or catches. */
module Base {

  /** Python's `Optional[T]`: `None` or a present value. */
  datatype Option<+T> = None | Some(value: T)

  /** The exception classes the modelled code distinguishes. Collaborator
      failures that the code never inspects are all `ApiError`. */
  datatype Error =
    | ValueError
    | KeyError
    | IndexError
    | AttributeError
    | UnicodeDecodeError
    | ApiError

  /** A Python call that either returns a value or raises. */
  datatype Result<+T> = Ok(value: T) | Err(error: Error)

  function Min(a: int, b: int): int
  {
    if a <= b then a else b
  }
}
