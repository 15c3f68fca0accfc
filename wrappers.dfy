/** Option and Result, the store's "undefined" and its thrown errors. */
module Wrappers {

  /** An optional value: None stands for a TypeScript `undefined` or an absent key. */
  datatype Option<+T> = None | Some(value: T) {
    function GetOr(default: T): T {
      match this
      case Some(v) => v
      case None => default
    }
  }

  /** The outcome of a store operation that can throw. */
  datatype Result<+R, +E> = Success(value: R) | Failure(error: E)
}
