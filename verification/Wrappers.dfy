/** Values that may be absent: the source's `null` and `undefined`. */
module Wrappers {

  datatype Option<+T> = None | Some(value: T) {
    function GetOr(default: T): T {
      match this
      case Some(v) => v
      case None => default
    }
  }

  datatype Result<+T> = Success(value: T) | Failure(error: string)

  function Max(a: int, b: int): int {
    if a >= b then a else b
  }
}
