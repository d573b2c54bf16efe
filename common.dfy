/** Values shared by every part of the model: a JavaScript value that may be
    missing (`null`/`undefined`) and the outcome of an awaited call. */
module Common {

  /** A value that may be absent. */
  datatype Option<T> = None | Some(value: T) {
    /** The value, or `default` when absent (the `x || default` idiom). */
    function GetOr(default: T): T {
      match this
      case Some(v) => v
      case None => default
    }
  }

  /** The outcome of an awaited promise or of a call that may throw:
      `Err` carries the message of the rejection. */
  datatype Result<T> = Ok(value: T) | Err(message: string)
}
