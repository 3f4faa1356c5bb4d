/** Optional values: `undefined`/`null` in the application's records. */
module Wrappers {

  datatype Option<+T> = None | Some(value: T) {

    /** The value, or `default` when absent (the `??` operator). */
    function GetOr(default: T): T {
      match this
      case Some(v) => v
      case None => default
    }
  }

  /** A value caught by a `catch`: an `Error` with its message, or anything else that was thrown. */
  datatype Thrown = ErrorObject(message: string) | OtherValue
}
