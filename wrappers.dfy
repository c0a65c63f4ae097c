/** Option and Result values, used for Python's `None` and for raised exceptions. */
module Wrappers {

  datatype Option<+T> = None | Some(value: T) {
    function GetOr(default: T): T {
      match this
      case Some(v) => v
      case None => default
    }
  }

  datatype Result<+T, +E> = Success(value: T) | Failure(error: E)
}

/** How a request fails: an `HTTPException` (or a JSON error response) with its status and detail, or an uncaught Python exception, which FastAPI answers with a 500. */
module Http {
  datatype Failure = Http(status: nat, detail: string) | Crash(exception: string)

  const UNAUTHORIZED := 401
  const FORBIDDEN := 403
  const NOT_FOUND := 404
  const BAD_REQUEST := 400
}
