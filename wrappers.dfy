/** Optional values: a missing cell of the incident file (pandas NaN) is `None`. */
module Wrappers {

  datatype Option<T> = None | Some(value: T) {

    /** The present value, or `default` when missing (pandas `fillna(default)`). */
    function GetOr(default: T): (r: T)
      ensures Some? ==> r == value
      ensures None? ==> r == default
    {
      match this
      case Some(v) => v
      case None => default
    }
  }
}
