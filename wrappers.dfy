/** Option and Result types, and the HTTP failures the server answers with. */
module Wrappers {

  datatype Option<+T> = None | Some(value: T) {
    function GetOr(default: T): T {
      match this
      case Some(v) => v
      case None => default
    }
  }

  /** The error responses of the Express handlers, by HTTP status. */
  datatype Failure = BadRequest | Unauthorized | Forbidden | NotFound | ServerError {
    function Code(): int {
      match this
      case BadRequest => 400
      case Unauthorized => 401
      case Forbidden => 403
      case NotFound => 404
      case ServerError => 500
    }
  }

  datatype Result<+T> = Ok(value: T) | Err(failure: Failure)
}
