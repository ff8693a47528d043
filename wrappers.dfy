/** The optional value used for a listing's parsed price: `None` stands for
    the NaN that `parseInt` yields on a missing or non-numeric attribute. */
module Wrappers {

  datatype Option<+T> = None | Some(value: T) {

    /** The wrapped value, or `default` when there is none. */
    function GetOr(default: T): T {
      match this
      case Some(v) => v
      case None => default
    }
  }
}
