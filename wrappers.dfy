/** Small wrapper datatypes shared by every module of the model. */
module Wrappers {

  /** A value that may be absent (an optional field, a TypeScript `T | undefined`). */
  datatype Option<+T> = None | Some(value: T) {
    function GetOr(default: T): T {
      match this
      case Some(v) => v
      case None => default
    }
  }

  /** How a JavaScript call completes: it returns a value, or it throws an error with a message. */
  datatype Outcome<+T> = Returned(value: T) | Threw(message: string)
}
