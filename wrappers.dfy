/** The optional-value type shared by every module of the model. */
module Wrappers {

  /** An optional value: `None` stands for a missing row, a null column or a failed parse. */
  datatype Option<+T> = None | Some(value: T) {

    /** The wrapped value, or `default` when there is none (JavaScript's `x ?? d`). */
    function GetOr(default: T): T {
      match this
      case Some(v) => v
      case None => default
    }
  }
}
