/** Small failure-carrying datatypes shared by the other modules. */
module Wrappers {

  datatype Option<+T> = None | Some(value: T) {
    /** The encapsulated value, or `default` when there is none. */
    function GetOr(default: T): T {
      match this
      case Some(v) => v
      case None => default
    }
  }

  /** The outcome of a computation that, in the source, may raise Python's ValueError
      (the only exception the modelled code raises or catches). */
  datatype Result<+T> = Ok(value: T) | ValueError
}
