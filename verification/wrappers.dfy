/** Optional values and validation results used throughout the questionnaire model. */
module Wrappers {

  /** A value that may be absent: an unset form field, an emission that did not happen. */
  datatype Option<+T> = None | Some(value: T)

  /** The outcome of a validation: the accepted value or what went wrong. */
  datatype Result<+R, +E> = Success(value: R) | Failure(error: E) {

    /** Forgets the error, keeping only whether a value was produced. */
    function ToOption(): Option<R> {
      match this
      case Success(v) => Some(v)
      case Failure(_) => None
    }
  }
}
