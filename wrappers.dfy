/** Optional values and success/failure results, used wherever the program has
    `null`/`undefined` or a rejected promise. */
module Wrappers {

  /** `None` stands for JavaScript's `null` (or a missing value). */
  datatype Option<+T> = None | Some(value: T) {
    function GetOr(default: T): T {
      match this
      case Some(v) => v
      case None => default
    }
  }

  /** The outcome of an awaited call: a value, or the message of the error it was rejected with. */
  datatype Result<+T> = Ok(value: T) | Err(message: string)

  /** JavaScript truthiness of an optional string: set and not empty. */
  predicate Truthy(v: Option<string>) {
    v.Some? && v.value != ""
  }

  /** A call whose success carries no value (`Promise<void>`). */
  datatype Unit = Unit
}
