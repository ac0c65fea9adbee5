/** Types shared by every component of the model. */
module Prelude {

  datatype Option<+T> = None | Some(value: T) {
    function GetOr(fallback: T): T {
      match this
      case Some(v) => v
      case None => fallback
    }
  }

  datatype Result<+T, +E> = Ok(value: T) | Err(error: E)

  /** Seconds on the one nondecreasing clock of the model. */
  type Time = real

  function Max(a: int, b: int): int {
    if a < b then b else a
  }
}
