/** Option, standing for the source's optional fields, `null` results and `undefined` lookups,
    and Result, standing for a value or a thrown error. */
module Wrappers {

  datatype Option<+T> = None | Some(value: T) {

    /** Replaces an absent value by `default` (the source's `??`). */
    function GetOr(default: T): T {
      match this
      case Some(v) => v
      case None => default
    }
  }

  datatype Result<+T> = Success(value: T) | Failure(error: string)
}
