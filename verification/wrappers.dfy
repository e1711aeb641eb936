/** Failure-carrying result types used wherever the modelled code raises. */
module Wrappers {

  /** A value that may be absent: a JSON field that was not sent, a
      Python `None`, or an operation that raised. */
  datatype Option<+T> = None | Some(value: T) {
    function GetOr(default: T): T {
      match this
      case Some(v) => v
      case None => default
    }
  }

  /** A value or an error message. */
  datatype Result<+T> = Success(value: T) | Failure(error: string)

  function Min(a: int, b: int): int { if a <= b then a else b }

  function Max(a: int, b: int): int { if a >= b then a else b }
}
