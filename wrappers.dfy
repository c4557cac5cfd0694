/** Small failure-compatible wrapper used across the model. */
module Wrappers {

  /** An optional value: `None` where the source uses `nullptr` or a missing map entry. */
  datatype Option<+T> = None | Some(value: T) {

    /** The wrapped value, or `default` when there is none. */
    function GetOr(default: T): T {
      match this
      case Some(v) => v
      case None => default
    }
  }
}
