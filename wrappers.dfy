/** Optional values and the outcome of an operation that may throw. */
module Wrappers {

  /** `None` stands for JavaScript's `undefined` wherever a value may be missing. */
  datatype Option<+T> = None | Some(value: T) {
    function GetOr(default: T): T {
      match this
      case Some(v) => v
      case None => default
    }
  }

  /** The result of a call that either returns a value or throws a `TypeError`. */
  datatype Outcome<+T> = Returns(value: T) | Throws
}
