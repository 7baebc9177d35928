/** Optional values: the model's reading of a JavaScript `undefined` or `null`. */
module Wrappers {
  datatype Option<+T> = None | Some(value: T) {
    /** The `??` operator: this value, or `default` when it is missing. */
    function GetOr(default: T): T {
      match this
      case Some(v) => v
      case None => default
    }
  }
}
