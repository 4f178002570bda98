/** Optional values, for lookups that may find nothing (`Array.prototype.find`). */
module Wrappers {
  datatype Option<+T> = None | Some(value: T) {
    /** The found value, or `default` when nothing was found (`find(...) || default`). */
    function GetOr(default: T): T {
      match this
      case Some(v) => v
      case None => default
    }
  }
}
