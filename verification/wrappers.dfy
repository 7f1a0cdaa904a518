/** Optional values, standing for TypeScript's `T | undefined` and for the
    absent keys of a `Partial<T>` update. */
module Wrappers {

  datatype Option<+T> = None | Some(value: T) {

    /** The carried value, or `default` when there is none. */
    function GetOr(default: T): T {
      match this
      case Some(v) => v
      case None => default
    }
  }
}
