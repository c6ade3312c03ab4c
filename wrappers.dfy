/** The optional value used wherever the application has `undefined`, `null` or a
  * rejected lookup. */
module Wrappers {
  datatype Option<+T> = None | Some(value: T)
  {
    function GetOr(default: T): T
    {
      if Some? then value else default
    }
  }
}
