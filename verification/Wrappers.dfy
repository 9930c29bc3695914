/** A value that may be missing - null and undefined in the original - and the larger of two numbers. */
module Wrappers {
  function Max(a: int, b: int): int {
    if a < b then b else a
  }

  datatype Option<+T> = None | Some(value: T) {
    function GetOr(default: T): T {
      if Some? then value else default
    }
  }
}
