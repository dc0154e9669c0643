/** Optional values and fallible results, used for JavaScript's `undefined`/`null`
    and for operations that can throw. */
module Wrappers {

  /** `None` stands for an absent key, or for a variable or result that is `undefined` or
      `null`. A present object key always holds a defined value. */
  datatype Option<+T> = None | Some(value: T) {

    /** The value, or `default` when absent. */
    function GetOr(default: T): T {
      match this
      case Some(v) => v
      case None => default
    }
  }

  /** `Failure` stands for an exception the source lets escape. */
  datatype Result<+R, +E> = Success(value: R) | Failure(error: E)
}
