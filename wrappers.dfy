/** Optional values and results, standing in for JavaScript's `null` and thrown errors. */
module Wrappers {

  datatype Option<+T> = None | Some(value: T) {

    /** `value || fallback` for a value that is either absent or present. */
    function GetOr(fallback: T): T {
      match this
      case Some(v) => v
      case None => fallback
    }
  }

  /** Either a value or the message of the error the source would throw. */
  datatype Result<+T> = Ok(value: T) | Err(error: string)
}
