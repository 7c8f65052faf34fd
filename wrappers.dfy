/** Failure-carrying values: Python exceptions, numpy NaN/inf results and
    pandas `None` cells are modelled with these instead of preconditions. */
module Wrappers {

  /** A value that may be absent: a missing table cell, an undefined ratio. */
  datatype Option<+T> = None | Some(value: T)

  /** The outcome of an operation that raises or yields an undefined value on some inputs. */
  datatype Result<+T, +E> = Success(value: T) | Failure(error: E) {

    /** Forgets the reason of a failure. */
    function ToOption(): Option<T>
    {
      match this
      case Success(v) => Some(v)
      case Failure(_) => None
    }
  }
}
