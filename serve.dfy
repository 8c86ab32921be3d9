/**
 * The health endpoint: the single handler mounted at "/", and what becomes
 * of the error the listener returns.
 */
module Serve {
  import opened Wrappers
  import Http

  /** A response as the handler writes it. */
  datatype Response = Response(status: int, body: string)

  const BODY_OK: string := "{\"ok\":true}"
  const BODY_NOT_OK: string := "{\"ok\":false}"
  /** http.Error writes its message followed by a newline. */
  const BODY_METHOD_NOT_ALLOWED: string := "Method Not Allowed\n"

  /** Reads the liveness flag back from a health body; None for any other body. */
  function DecodeBody(body: string): Option<bool> {
    if body == BODY_OK then Some(true)
    else if body == BODY_NOT_OK then Some(false)
    else None
  }

  /**
   * The handler: anything but GET is refused with 405 without looking at
   * liveness; a GET answers 200 when alive and 503 when not, with a body
   * that carries the same judgment. The request path plays no part.
   */
  function Handle(verb: string, alive: bool): (r: Response)
    ensures verb != Http.METHOD_GET ==> r == Response(Http.STATUS_METHOD_NOT_ALLOWED, BODY_METHOD_NOT_ALLOWED)
    ensures verb == Http.METHOD_GET ==> r.status == (if alive then Http.STATUS_OK else Http.STATUS_SERVICE_UNAVAILABLE)
    ensures Http.IsSuccessful(r.status) <==> verb == Http.METHOD_GET && alive
    ensures DecodeBody(r.body) == if verb == Http.METHOD_GET then Some(alive) else None
  {
    if verb != Http.METHOD_GET then
      Response(Http.STATUS_METHOD_NOT_ALLOWED, BODY_METHOD_NOT_ALLOWED)
    else if alive then
      Response(Http.STATUS_OK, BODY_OK)
    else
      Response(Http.STATUS_SERVICE_UNAVAILABLE, BODY_NOT_OK)
  }

  /** How ListenAndServe returned: an intentional shutdown, or any other failure. */
  datatype ListenError = ServerClosed | ListenFailed(detail: string)

  /** The error handed to OnError when the listener returns: only a real failure, and only if OnError is set. */
  function ListenerReport(err: ListenError, hasOnError: bool): (reported: Option<string>)
    ensures reported.Some? <==> err.ListenFailed? && hasOnError
    ensures reported.Some? ==> reported.value == err.detail
  {
    match err
    case ServerClosed => None
    case ListenFailed(detail) => if hasOnError then Some(detail) else None
  }
}
