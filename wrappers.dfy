/** Nullable values and Java's "returns normally or throws" outcome. */
module Wrappers {

  /** A Java reference or boxed value that may be null. */
  datatype Option<+T> = None | Some(value: T) {
    function GetOr(default: T): T {
      match this
      case Some(v) => v
      case None => default
    }
  }

  /** The unchecked exceptions the modelled services can raise. */
  datatype Failure =
    | IllegalState(message: string)
    | IllegalArgument(message: string)
    | NullPointer
    | ClassCast

  /** The outcome of a Java call: a returned value or a thrown exception. */
  datatype Exceptional<+T> = Normal(value: T) | Thrown(failure: Failure)
}
