/** What a request handler hands back to the web framework. */
module Http {

  /** The error statuses the handlers produce. */
  datatype Status = BadRequest | Unauthorized | InternalServerError

  /** The numeric HTTP status of an error response. */
  function Code(s: Status): (c: nat)
    ensures 400 <= c < 600
    ensures c < 500 <==> s != InternalServerError
  {
    match s
    case BadRequest => 400
    case Unauthorized => 401
    case InternalServerError => 500
  }

  datatype Response =
    | Redirect(location: string)                 // 3xx to `location`
    | Success(body: string)                      // 200 with a text body
    | HttpError(status: Status, message: string) // an actix-web error response
    | AppError(message: string)                  // an axum handler's error value
    | Panic(message: string)                     // the handler aborted through `expect`

  /** The generic body of every 500 the Plex callback produces itself. */
  const SOMETHING_BAD: string := "something bad happened"
  const UNAUTHORIZED_USER: string := "unauthorized user"
  const INVALID_STATE: string := "invalid state"
  const NO_STATE_IN_SESSION: string := "no state found in session"
  const INVALID_DISCORD_TOKEN: string := "invalid discord token"
  /** The body of actix-web's error for a blocking task that did not finish (it panicked). */
  const BLOCKING_POOL_GONE: string := "Blocking thread pool is gone"
  const LINKED_BODY: string := "Successfully linked! You can go back to Discord now and close this tab."
}
