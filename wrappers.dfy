/** Option and Result values shared by the other modules. */
module Wrappers {

  /** A value that may be missing (`null` or `undefined` in the source). */
  datatype Option<+T> = None | Some(value: T) {
    /**
     * The value, or `default` when there is none: the source's `x ?? default`,
     * and also its `x || default` where `x` is an object or missing, since the
     * two operators differ only on falsy values such as `""` or `0`.
     */
    function GetOr(default: T): T {
      match this
      case Some(v) => v
      case None => default
    }
  }

  /** The outcome of an operation that either returns a value or throws. */
  datatype Result<+R, +E> = Success(value: R) | Failure(error: E)
}
