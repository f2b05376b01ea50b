/** Nullable values and success/failure outcomes, as the Kotlin code uses `T?`
    and exceptions. */
module Wrappers {

  /** A Kotlin nullable value: `None` stands for `null`. */
  datatype Option<+T> = None | Some(value: T) {
    /** Kotlin's elvis operator `x ?: default`. */
    function GetOr(default: T): T {
      match this
      case Some(v) => v
      case None => default
    }
  }

  /** The outcome of code that either returns a value or throws an exception
      carrying a message. */
  datatype Result<+R> = Success(value: R) | Failure(message: string)
}
