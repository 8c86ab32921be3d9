/** The few HTTP facts the heartbeat client relies on (RFC 9110). */
module Http {

  /** 200 OK, section 15.3.1 of RFC 9110. */
  const STATUS_OK: int := 200
  /** 405 Method Not Allowed, section 15.5.6 of RFC 9110. */
  const STATUS_METHOD_NOT_ALLOWED: int := 405
  /** 503 Service Unavailable, section 15.6.4 of RFC 9110. */
  const STATUS_SERVICE_UNAVAILABLE: int := 503

  /** The request method the health endpoint answers. */
  const METHOD_GET: string := "GET"

  /** The successful class of status codes, 200 to 299 (section 15.3 of RFC 9110). */
  predicate IsSuccessful(code: int) {
    200 <= code <= 299
  }
}
