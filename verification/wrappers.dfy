/** The optional-value type used for JavaScript's `undefined` and for a rejected save. */
module Wrappers {

  /** `None` stands for an absent (undefined) value, `Some(v)` for a present one. */
  datatype Option<+T> = None | Some(value: T) {

    /** Returns the wrapped value, or `default` when there is none. */
    function GetOr(default: T): T {
      match this
      case Some(v) => v
      case None => default
    }
  }
}
