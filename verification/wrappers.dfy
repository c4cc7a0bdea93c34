/** Failure-carrying datatypes threaded through the translator's stages, and
    the translator's terminal errors. */
module Wrappers {

  /** A value that may be missing: Python's `None` and absent dictionary keys. */
  datatype Option<+T> = None | Some(value: T) {

    /** The encapsulated value, or `default` when there is none. */
    function GetOr(default: T): (r: T) {
      match this
      case Some(v) => v
      case None => default
    }
  }

  /** Either a value or an error; usable with `:-`. */
  datatype Result<+R, +E> = Success(value: R) | Failure(error: E) {

    predicate IsFailure() {
      Failure?
    }

    function PropagateFailure<U>(): (r: Result<U, E>)
      requires Failure?
    {
      Failure(error)
    }

    function Extract(): (r: R)
      requires Success?
    {
      value
    }
  }

  /** The fatal errors of one translation call. */
  datatype TranslationError =
    | IsaTooFewSeparators   // an ISA segment with fewer than 16 element separators after it
    | IsaNoTerminator       // ISA16 is not followed by a segment terminator character
    | NoEnvelope            // neither an ISA nor a usable ST segment
    | NoClaims              // the segments hold no CLM segment
}
