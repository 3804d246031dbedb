/** Small failure-aware datatypes used by the scanners and by the rewriter. */
module Wrappers {

  /** A value that may be absent: a parse that did not match, a search that found nothing. */
  datatype Option<+T> = None | Some(value: T) {

    /** The encapsulated value, or `default` when there is none. */
    function GetOr(default: T): (r: T) {
      match this
      case Some(v) => v
      case None => default
    }
  }

  /** The outcome of a computation that can raise: a value, or the error that stopped it. */
  datatype Result<+R, +E> = Success(value: R) | Failure(error: E)
}
