/** Optional values: JavaScript's null/undefined and Go's nil pointers. */
module Wrappers {
  datatype Option<+T> = None | Some(value: T)
  {
    /** `x ?? d` */
    function GetOr(d: T): T
    {
      if Some? then value else d
    }
  }
}
