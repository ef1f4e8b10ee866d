/** Optional values and outcomes, standing for the source's `Option<T>`
    and `Result<T, E>`. */
module Wrappers {

  datatype Option<+T> = None | Some(value: T) {

    /** The contained value, or `default` when there is none (`unwrap_or`). */
    function UnwrapOr(default: T): T {
      match this
      case Some(v) => v
      case None => default
    }
  }

  /** A value, or the error that prevented it. */
  datatype Result<+T, +E> = Success(value: T) | Failure(error: E)
}
