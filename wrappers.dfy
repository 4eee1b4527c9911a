/** Optional values and success-or-failure outcomes, shared by every module. */
module Wrappers {

  /** A value that may be absent: JavaScript's `null`/`undefined`, Python's `None` or a missing key. */
  datatype Option<+T> = None | Some(value: T) {

    /** The value when present, `default` otherwise (Python's `dict.get(key, default)`). */
    function GetOr(default: T): (r: T)
      ensures Some? ==> r == value
      ensures None? ==> r == default
    {
      if Some? then value else default
    }

    /** This value when present, `other` otherwise (JavaScript's `??`). */
    function OrElse(other: Option<T>): (r: Option<T>)
      ensures Some? ==> r == this
      ensures None? ==> r == other
    {
      if Some? then this else other
    }
  }

  /** The outcome of a request to an external collaborator: a parsed reply or an error message. */
  datatype Result<+R> = Success(value: R) | Failure(message: string)
}
