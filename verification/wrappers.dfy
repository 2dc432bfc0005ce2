/** Small failure-carrying datatypes shared by every module of the model. */
module Wrappers {

  /** A value that may be absent: JavaScript's `null`/`undefined` for a slot that holds a `T`. */
  datatype Option<+T> = None | Some(value: T) {

    /** The held value, or `default` when absent (the `??` operator). */
    function GetOr(default: T): T {
      match this
      case Some(v) => v
      case None => default
    }
  }

  /** How an awaited call ended: it resolved with a value or it threw. */
  datatype Outcome<+T> = Returned(value: T) | Threw
}
