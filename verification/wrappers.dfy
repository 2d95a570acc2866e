/** Optional values and settled promises used throughout the model. */
module Wrappers {

  /** `None` stands for a JavaScript `undefined` or `null`. */
  datatype Option<+T> = None | Some(value: T) {

    /** The held value, with `default` standing in for `undefined`. */
    function GetOr(default: T): (r: T) {
      match this
      case Some(v) => v
      case None => default
    }
  }

  /** How an awaited promise settled: it rejected (the handler stops there),
      or it resolved with a value (which may itself be `undefined`). */
  datatype Settled<+T> = Rejected | Resolved(value: T)
}
