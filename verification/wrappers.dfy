/** Failure-compatible wrappers shared by every module of the model. */
module Wrappers {

  /** An optional value: a missing dictionary key, an absent `user_id`, a search that found nothing. */
  datatype Option<+T> = None | Some(value: T) {
    function GetOr(default: T): T {
      match this
      case Some(v) => v
      case None => default
    }
  }

  /** The result of an operation that can raise: `Err` stands for the Python exception. */
  datatype Result<+T, +E> = Ok(value: T) | Err(error: E)
}
