/** Option and Result for the optional fields and the error paths of the storefront. */
module Wrappers {

  /** An optional value: `None` stands for `undefined`/`null`. */
  datatype Option<+T> = None | Some(value: T) {
    function GetOr(default: T): T {
      match this
      case Some(v) => v
      case None => default
    }
  }

  /** The outcome of an operation that may raise: `Err` carries the error message. */
  datatype Result<+R> = Ok(value: R) | Err(error: string)

  /** The abstract reply of a remote datastore call: a returned row (or rows),
      no data without an error, or an error. */
  datatype Reply<+T> = Data(value: T) | NoData | Error(message: string)
}
