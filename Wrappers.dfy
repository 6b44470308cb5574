/** Option and Result, used for Java's nullable references and for error paths. */
module Wrappers {

  /** A Java reference that may be null: `None` stands for null. */
  datatype Option<+T> = None | Some(value: T) {

    /** The value, or `default` when there is none. */
    function GetOr(default: T): T {
      match this
      case Some(v) => v
      case None => default
    }
  }

  /** Either a value or the reason the operation stopped. */
  datatype Result<+R, +E> = Success(value: R) | Failure(error: E)
}
