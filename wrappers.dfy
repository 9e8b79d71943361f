/** Optional values and fallible results, as used throughout the model. */
module Wrappers {
  /** `undefined` / `null` versus a present value. */
  datatype Option<+T> = None | Some(value: T)

  /** A value, or the message of the error the source throws. */
  datatype Result<+T> = Ok(value: T) | Err(message: string)

  /** `o ?? d`: the value when present, otherwise the default. */
  function GetOr<T>(o: Option<T>, d: T): (r: T)
    ensures o.Some? ==> r == o.value
    ensures o.None? ==> r == d
  {
    if o.Some? then o.value else d
  }
}
