/** Option and Result values shared by the extractor and the resolver. */
module Wrappers {

  /** A value that may be absent: Python's `None` or a missing dictionary key. */
  datatype Option<T> = None | Some(value: T) {

    /** This value if present, otherwise `other`. */
    function OrElse(other: Option<T>): Option<T>
    {
      if Some? then this else other
    }
  }

  /** The outcome of an operation that can raise: a value, or the exception's message. */
  datatype Result<T, E> = Success(value: T) | Failure(error: E)
}
