/** Optional values: `None` stands for JavaScript's `null` / `undefined`. */
module Wrappers {
  datatype Option<T> = None | Some(value: T)
  {
    function GetOr(default: T): (r: T)
      ensures Some? ==> r == value
      ensures None? ==> r == default
    {
      if Some? then value else default
    }
  }
}
