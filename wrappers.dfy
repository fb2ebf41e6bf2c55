/** Option and Result types standing for Python's None and for raised exceptions. */
module Wrappers {

  datatype Option<T> = None | Some(value: T)
  {
    predicate IsSome() { this.Some? }

    function GetOr(default: T): T
    {
      match this
      case Some(v) => v
      case None => default
    }
  }

  /** The error kinds the modelled code raises. */
  datatype Error =
    | ValueError(msg: string)
    | IndexError
    | AttributeError
    | TypeError
    | NameError(name: string)
    | KeyError(key: string)
    | RateLimitExceeded
    | ToolFailure(msg: string)
    | Failure(msg: string)

  datatype Result<T> = Ok(value: T) | Err(error: Error)
  {
    predicate IsOk() { this.Ok? }
  }
}
