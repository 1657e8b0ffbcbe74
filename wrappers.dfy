/** Missing values: a cell or score that pandas would hold as NaN is `None`. */
module Wrappers {

  datatype Option<+T> = None | Some(value: T) {

    /** The wrapped value, or `default` when missing (pandas `fillna(default)` on one cell). */
    function GetOr(default: T): T {
      match this
      case Some(v) => v
      case None => default
    }
  }
}
