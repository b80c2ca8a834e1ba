/** Optional values: the model's stand-in for "key present in the mapping" (`Some`) or absent (`None`). */
module Wrappers {

  datatype Option<+T> = None | Some(value: T) {

    /** The value of a present key, or `default` for an absent one (Python's `d.get(key, default)`). */
    function GetOr(default: T): (v: T)
      ensures this.Some? ==> v == this.value
      ensures this.None? ==> v == default
    {
      match this
      case Some(x) => x
      case None => default
    }
  }
}
