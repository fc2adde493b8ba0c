/** Optional values and error-or-value results, used in place of JavaScript's
    `undefined` option fields and thrown exceptions. */
module Wrappers {

  /** An optional value: `None` stands for an absent (undefined) value. */
  datatype Option<+T> = None | Some(value: T) {

    /** The wrapped value, or `default` when absent. */
    function GetOr(default: T): (r: T)
      ensures Some? ==> r == value
      ensures None? ==> r == default
    {
      match this
      case Some(v) => v
      case None => default
    }
  }

  /** Either a successful value or the error a call throws. */
  datatype Result<+R, +E> = Ok(value: R) | Err(error: E)
}
