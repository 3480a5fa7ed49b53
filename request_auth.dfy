/** The request interceptor that attaches the stored access token as a
    bearer credential. */
module RequestAuth {
  import opened Wrappers
  import opened Http
  import TokenStore

  const BearerPrefix := "Bearer "

  /** The Authorization value of section 2.1 of RFC 6750: the scheme
      "Bearer", one space, the token. */
  function Bearer(token: string): (h: string)
    ensures ParseBearer(h) == Some(token)
  {
    BearerPrefix + token
  }

  /** The token of a bearer Authorization value. */
  function ParseBearer(h: string): Option<string> {
    if |h| >= |BearerPrefix| && h[..|BearerPrefix|] == BearerPrefix then Some(h[|BearerPrefix|..]) else None
  }

  /** The headers after attachment, given what the store reads for the access
      token: a non-empty token sets Authorization and nothing else changes. */
  function AttachedHeaders(headers: map<string, string>, token: Option<string>): map<string, string> {
    if token.Some? && token.value != "" then headers[AuthorizationHeader := Bearer(token.value)] else headers
  }

  /** Attachment carries the token exactly when there is a non-empty one, and
      leaves every other header as it was. */
  lemma AttachedHeadersSpec(headers: map<string, string>, token: Option<string>)
    ensures var r := AttachedHeaders(headers, token);
            && (token.Some? && token.value != "" ==> AuthorizationHeader in r && ParseBearer(r[AuthorizationHeader]) == token)
            && (token.None? || token.value == "" ==> r == headers)
            && (forall h :: h != AuthorizationHeader ==> (h in r <==> h in headers) && (h in r ==> r[h] == headers[h]))
  {
  }

  /** attachAuthToken: returns the config it was given, updated in place.
      Reading the token may purge a tampered access record. */
  method AttachAuthToken(store: TokenStore.TokenStorage, config: RequestConfig) returns (r: RequestConfig)
    modifies config, store.Target()
    ensures r == config
    ensures config.headers == AttachedHeaders(old(config.headers), old(store.Stored(TokenStore.AccessTokenKey)))
    ensures config.retry == old(config.retry)
    ensures store.Raw() == store.AfterRead(old(store.Raw()), TokenStore.AccessTokenKey)
    ensures forall k :: store.Stored(k) == old(store.Stored(k))
  {
    var token := store.GetAccessToken();
    ghost var raw := store.Raw();
    if token.Some? && token.value != "" {
      config.headers := config.headers[AuthorizationHeader := Bearer(token.value)];
    }
    assert store.Raw() == raw;
    r := config;
  }
}
