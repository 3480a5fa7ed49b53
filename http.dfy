/** The transport-side values the interceptors see. */
module Http {
  import opened JsValues

  const AuthorizationHeader := "Authorization"

  /** An HTTP response as axios reports it with a failure. */
  datatype Response = Response(status: int, data: JsValue)

  /** The request config axios hands to the interceptors; they update its
      headers and its `_retry` flag in place. */
  class RequestConfig {
    var headers: map<string, string>
    var retry: bool

    constructor (headers: map<string, string>)
      ensures this.headers == headers && !retry
    {
      this.headers := headers;
      retry := false;
    }
  }
}
