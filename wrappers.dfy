/** Nullable values and operations that can throw. */
module Wrappers {

  /** A C# nullable reference or `Nullable<T>`: `None` stands for `null`. */
  datatype Option<T> = None | Some(value: T) {

    /** The null-coalescing operator `this ?? default`. */
    function GetOr(default: T): T {
      match this
      case Some(v) => v
      case None => default
    }
  }

  /** The outcome of an operation that either returns a value or throws. */
  datatype Result<T, E> = Success(value: T) | Failure(error: E)
}
