/** Nullable results (Kotlin's `T?`) and results that may fail with an exception. */
module Wrappers {

  /** `None` is Kotlin's `null`. */
  datatype Option<+T> = None | Some(value: T) {

    /** The value, or `default` when absent: Kotlin's `?:` operator. */
    function GetOr(default: T): T
    {
      match this
      case Some(v) => v
      case None => default
    }
  }

  /** A value, or the message of the exception the source throws instead. */
  datatype Result<+R> = Success(value: R) | Failure(error: string)
}
