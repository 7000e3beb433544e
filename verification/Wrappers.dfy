// Optional values, for NULL columns and absent results, and small numbers.
module Wrappers {
  datatype Option<+T> = None | Some(value: T) {
    function GetOr(default: T): T {
      match this
      case None => default
      case Some(v) => v
    }
  }

  function Max(a: int, b: int): int {
    if a < b then b else a
  }

  function Bit(b: bool): nat {
    if b then 1 else 0
  }
}
