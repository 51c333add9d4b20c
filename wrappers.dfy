/** Failure-carrying values: Java's nullable references, thrown exceptions and
    void methods that may throw are modelled with these three datatypes. */
module Wrappers {

  /** A Java reference that may be null, or a `java.util.Optional`. */
  datatype Option<+T> = None | Some(value: T) {

    /** `Optional.orElse`. */
    function GetOr(default: T): T {
      match this
      case Some(v) => v
      case None => default
    }
  }

  /** A value-returning Java method that either returns or throws. */
  datatype Result<+T, +E> = Success(value: T) | Failure(error: E)

  /** A `void` Java method that either returns normally or throws. */
  datatype Outcome<+E> = Pass | Fail(error: E)
}
