/** Failure-carrying values shared by the decoders. */
module Wrappers {

  datatype Option<+T> = None | Some(value: T)

  /** A decode either produces a value or names why it refused the input. */
  datatype Result<+R, +E> = Success(value: R) | Failure(error: E) {

    /** The value, or `default` when the decode failed: how a zero-initialised
        Go receiver looks after a `Parse` call that only writes on success. */
    function GetOr(default: R): R
    {
      match this
      case Success(v) => v
      case Failure(_) => default
    }
  }
}
