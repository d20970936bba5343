/** Shared value types: optional values, results, and the HTTP error taxonomy of the API. */
module Common {

  /** A value that may be absent (a JSON field that was not sent, a row that was not found). */
  datatype Option<+T> = None | Some(value: T)

  /** The outcome of an operation that either yields a value or fails with an error. */
  datatype Result<+T, +E> = Ok(value: T) | Err(error: E)

  /** Every error the server answers with, apart from storage failures (500). */
  datatype ApiError =
    | MissingFields       // a required body field is absent or empty
    | DuplicateEmail      // the users.email UNIQUE constraint rejected the insert
    | InvalidCredentials  // unknown email, or the password does not match the stored hash
    | MissingToken        // no bearer token in the Authorization header
    | InvalidToken        // the token did not verify
    | NotFound            // no row matched both the id and the caller's user id
  {
    /** The HTTP status code the server sends for this error. */
    function Status(): (code: int)
      ensures 400 <= code < 500
      ensures code == 400 <==> (MissingFields? || DuplicateEmail?)
      ensures code == 401 <==> (InvalidCredentials? || MissingToken?)
      ensures code == 403 <==> InvalidToken?
      ensures code == 404 <==> NotFound?
    {
      match this
      case MissingFields => 400
      case DuplicateEmail => 400
      case InvalidCredentials => 401
      case MissingToken => 401
      case InvalidToken => 403
      case NotFound => 404
    }
  }
}
