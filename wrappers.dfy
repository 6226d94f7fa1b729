/** The optional-value type shared by every module of the model. */
module Wrappers {

  /** `None` stands for JavaScript's `null`/`undefined` where the source returns "nothing". */
  datatype Option<+T> = None | Some(value: T) {

    /** The value, or `default` when there is none. */
    function GetOr(default: T): T {
      match this
      case Some(v) => v
      case None => default
    }
  }
}
