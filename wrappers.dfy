/** Option and Result, the two failure-carrying shapes the model uses. */
module Wrappers {

  datatype Option<+T> = None | Some(value: T) {
    function GetOr(default: T): T {
      match this
      case Some(v) => v
      case None => default
    }
  }

  /** `Err` stands for a thrown or rejected `Error`; `Ok` for the resolved value. */
  datatype Result<+T, +E> = Ok(value: T) | Err(error: E)
}
