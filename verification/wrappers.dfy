/** Failure-compatible option type used for replies and parse results. */
module Wrappers {

  /** `None` stands for a failed exchange or a rejected parse; `Some` carries the value. */
  datatype Option<+T> = None | Some(value: T) {

    /** Returns the value held in `Some`, or `default` for `None`. */
    function GetOr(default: T): (r: T)
      ensures Some? ==> r == value
      ensures None? ==> r == default
    {
      match this
      case Some(v) => v
      case None => default
    }
  }
}
