/** The nullable-value wrapper used throughout the model. */
module Wrappers {

  /** `None` stands for a JavaScript `null` or `undefined` where the model only needs presence. */
  datatype Option<+T> = None | Some(value: T) {

    /** The wrapped value, or `default` when absent. */
    function GetOr(default: T): (r: T)
      ensures Some? ==> r == value
      ensures None? ==> r == default
    {
      match this
      case Some(v) => v
      case None => default
    }
  }
}
