/** Option and Result, used where the source works with null or throws. */
module Wrappers {

  /** Some value, or None where the source has null. */
  datatype Option<+T> = None | Some(value: T) {
    function GetOr(default: T): T
    {
      match this
      case Some(v) => v
      case None => default
    }

    /** The null-coalescing ?? of C#: this when it is set, otherwise other. */
    function OrElse(other: Option<T>): Option<T>
    {
      if Some? then this else other
    }
  }

  /** A value, or the exception the source would throw instead. */
  datatype Result<+R, +E> = Success(value: R) | Failure(error: E)

  function Min(a: int, b: int): int { if a <= b then a else b }

  function Max(a: int, b: int): int { if a >= b then a else b }
}
