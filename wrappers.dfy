/** Nullable cells. `None` stands for a missing value (NaN, None or NaT in a DataFrame). */
module Wrappers {

  datatype Option<+T> = None | Some(value: T) {

    /** The value, or `default` when missing (what `fillna(default)` does to one cell). */
    function GetOr(default: T): T {
      match this
      case Some(v) => v
      case None => default
    }
  }
}
