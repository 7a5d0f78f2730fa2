/** Option and Result, the two failure-carrying datatypes the rest of the model uses
    for values that may be absent (a missing key, SQL NULL, JavaScript `undefined`)
    and for operations that may raise. */
module Wrappers {

  datatype Option<+T> = None | Some(value: T) {
    function GetOr(default: T): T {
      match this
      case Some(v) => v
      case None => default
    }
  }

  datatype Result<+T, +E> = Ok(value: T) | Err(error: E)
}
