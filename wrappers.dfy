/** Optional values: a key of a loosely structured record is either present with a value or absent. */
module Wrappers {

  datatype Option<+T> = None | Some(value: T) {

    /** The value when present, else the given default (a dictionary's `get(key, default)`). */
    function GetOr(default: T): (r: T)
      ensures Some? ==> r == value
      ensures None? ==> r == default
    {
      match this
      case Some(v) => v
      case None => default
    }
  }
}
