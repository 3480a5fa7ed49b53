/** BaseApi: the versioned URL prefix of a resource, the request config each
    verb builds, and how `request` passes on a reply or rewrites a failure. */
module BaseApi {
  import opened Wrappers
  import opened JsValues
  import opened JsStrings
  import opened Http

  /** The AbortSignal an instance was created with, by identity. */
  datatype AbortSignal = AbortSignal(id: nat)

  datatype HttpMethod = GET | POST | PUT | DELETE

  /** The config handed to axiosClient.request; an absent `params` or `data`
      is `Undefined`. */
  datatype RequestSpec = RequestSpec(url: string, verb: HttpMethod, params: JsValue, data: JsValue, signal: AbortSignal)

  const ApiRoot := "/api"
  const VersionMarker := "/v"
  const ApiErrorLead := "API Error "
  const NetworkLabel := "Network"

  /** `/api${basePath}/v${version}` for an integral version. */
  function UrlPrefix(basePath: string, version: int): string {
    ApiRoot + basePath + VersionMarker + IntToString(version)
  }

  /** An instance: its fields are set once, by the constructor. */
  datatype Api = Api(basePath: string, version: int, signal: AbortSignal, urlPrefix: string) {

    /** The constructor's invariant: the prefix is built from the base path
        and the version. */
    ghost predicate Valid() {
      urlPrefix == UrlPrefix(basePath, version)
    }

    function Get(endpoint: string, params: JsValue): RequestSpec {
      RequestSpec(urlPrefix + endpoint, GET, params, Undefined, signal)
    }

    function Post(endpoint: string, body: JsValue): RequestSpec {
      RequestSpec(urlPrefix + endpoint, POST, Undefined, body, signal)
    }

    function Put(endpoint: string, body: JsValue): RequestSpec {
      RequestSpec(urlPrefix + endpoint, PUT, Undefined, body, signal)
    }

    function Delete(endpoint: string): RequestSpec {
      RequestSpec(urlPrefix + endpoint, DELETE, Undefined, Undefined, signal)
    }

    /** The endpoint a request config addresses under this instance, if its
        URL lies under the prefix. */
    function EndpointOf(r: RequestSpec): Option<string> {
      if |urlPrefix| <= |r.url| && r.url[..|urlPrefix|] == urlPrefix then Some(r.url[|urlPrefix|..]) else None
    }
  }

  function NewApi(basePath: string, version: int, signal: AbortSignal): (api: Api)
    ensures api.Valid()
    ensures api.basePath == basePath && api.version == version && api.signal == signal
  {
    Api(basePath, version, signal, UrlPrefix(basePath, version))
  }

  /** Reads the version back out of a prefix built for `basePath`. */
  function PrefixVersion(basePath: string, prefix: string): Option<int> {
    var lead := ApiRoot + basePath + VersionMarker;
    if |lead| <= |prefix| && prefix[..|lead|] == lead && IsIntegerText(prefix[|lead|..])
    then Some(ParseInt(prefix[|lead|..]))
    else None
  }

  lemma PrefixVersionRoundTrip(basePath: string, version: int)
    ensures PrefixVersion(basePath, UrlPrefix(basePath, version)) == Some(version)
  {
    var lead := ApiRoot + basePath + VersionMarker;
    var p := UrlPrefix(basePath, version);
    assert p[..|lead|] == lead;
    assert p[|lead|..] == IntToString(version);
    IntRoundTrip(version);
  }

  /** Instances of one resource with different versions never share a prefix. */
  lemma PrefixSeparatesVersions(basePath: string, v1: int, v2: int)
    requires UrlPrefix(basePath, v1) == UrlPrefix(basePath, v2)
    ensures v1 == v2
  {
    PrefixVersionRoundTrip(basePath, v1);
    PrefixVersionRoundTrip(basePath, v2);
  }

  /** Every verb addresses `urlPrefix + endpoint` under the instance's signal;
      GET carries only params, POST and PUT only the body, DELETE neither. */
  lemma VerbsAddressTheirEndpoint(api: Api, endpoint: string, params: JsValue, body: JsValue)
    ensures var g := api.Get(endpoint, params);
            api.EndpointOf(g) == Some(endpoint) && g.verb == GET && g.params == params && g.data == Undefined && g.signal == api.signal
    ensures var p := api.Post(endpoint, body);
            api.EndpointOf(p) == Some(endpoint) && p.verb == POST && p.params == Undefined && p.data == body && p.signal == api.signal
    ensures var u := api.Put(endpoint, body);
            api.EndpointOf(u) == Some(endpoint) && u.verb == PUT && u.params == Undefined && u.data == body && u.signal == api.signal
    ensures var d := api.Delete(endpoint);
            api.EndpointOf(d) == Some(endpoint) && d.verb == DELETE && d.params == Undefined && d.data == Undefined && d.signal == api.signal
  {
    var n := |api.urlPrefix|;
    assert (api.urlPrefix + endpoint)[..n] == api.urlPrefix;
    assert (api.urlPrefix + endpoint)[n..] == endpoint;
  }

  /** What axiosClient.request can throw: an axios error, with or without a
      response, or anything else (`E`). */
  datatype Thrown<E> = AxiosThrown(response: Option<Response>) | OtherThrown(error: E)

  datatype Reply<E> = Fulfilled(data: JsValue) | Rejected(thrown: Thrown<E>)

  /** What `request` rejects with: a new Error carrying a message, or what was
      thrown, unchanged. */
  datatype Rethrown<E> = ApiError(message: string) | PassedOn(error: E)

  /** `typeof data === 'string' ? data : JSON.stringify(data)` inside a
      template: JSON.stringify(undefined) is undefined and prints as such. */
  function BodyText(data: JsValue, stringify: JsValue -> string): string {
    match data
    case Str(s) => s
    case Undefined => "undefined"
    case _ => stringify(data)
  }

  /** `${status ?? 'Network'}`. */
  function StatusLabel(status: Option<int>): string {
    if status.Some? then IntToString(status.value) else NetworkLabel
  }

  function ApiErrorMessage(status: Option<int>, data: JsValue, stringify: JsValue -> string): string {
    ApiErrorLead + StatusLabel(status) + ": " + BodyText(data, stringify)
  }

  /** request: the reply's data on success; an axios error becomes an Error
      with a message built from status and body; anything else is rethrown. */
  function Request<E>(reply: Reply<E>, stringify: JsValue -> string): (r: Result<JsValue, Rethrown<E>>)
    ensures reply.Fulfilled? <==> r.Ok?
    ensures reply.Fulfilled? ==> r.value == reply.data
    ensures reply.Rejected? && reply.thrown.OtherThrown? <==> r.Err? && r.error.PassedOn?
    ensures r.Err? && r.error.PassedOn? ==> r.error.error == reply.thrown.error
  {
    match reply
    case Fulfilled(data) => Ok(data)
    case Rejected(AxiosThrown(response)) =>
      var status := if response.Some? then Some(response.value.status) else None;
      var data := if response.Some? then response.value.data else Undefined;
      Err(ApiError(ApiErrorMessage(status, data, stringify)))
    case Rejected(OtherThrown(e)) => Err(PassedOn(e))
  }

  /** The status, or its absence, read back from the head of an API Error message. */
  function MessageStatus(message: string): Option<Option<int>> {
    if |ApiErrorLead| <= |message| && message[..|ApiErrorLead|] == ApiErrorLead then
      var statusText := Split(message[|ApiErrorLead|..], ':')[0];
      if statusText == NetworkLabel then Some(None)
      else if IsIntegerText(statusText) then Some(Some(ParseInt(statusText)))
      else None
    else None
  }

  /** The status part of the message has no ':' and parses back. */
  lemma StatusLabelReadsBack(status: Option<int>)
    ensures ':' !in StatusLabel(status)
    ensures status.None? ==> StatusLabel(status) == NetworkLabel
    ensures status.Some? ==> StatusLabel(status) != NetworkLabel && IsIntegerText(StatusLabel(status))
                             && ParseInt(StatusLabel(status)) == status.value
  {
    if status.Some? {
      var t := StatusLabel(status);
      assert forall k :: 0 <= k < |t| ==> IsDigit(t[k]) || t[k] == '-';
      assert IsDigit(t[0]) || t[0] == '-';
      IntRoundTrip(status.value);
    }
  }

  lemma MessageStatusOfMessage(status: Option<int>, body: string)
    ensures MessageStatus(ApiErrorLead + StatusLabel(status) + ": " + body) == Some(status)
  {
    var statusText := StatusLabel(status);
    var m := ApiErrorLead + statusText + ": " + body;
    var rest := statusText + ": " + body;
    assert m[..|ApiErrorLead|] == ApiErrorLead && m[|ApiErrorLead|..] == rest;
    StatusLabelReadsBack(status);
    assert IsFirstSegment(rest, ':', statusText);
    FirstSegmentUnique(rest, ':', statusText, Split(rest, ':')[0]);
  }

  /** The message of a rewritten axios failure ends with ": " and the body:
      the string itself, "undefined" for no body, and its JSON text otherwise. */
  lemma ApiErrorKeepsBody<E>(response: Option<Response>, stringify: JsValue -> string)
    ensures var r := Request<E>(Rejected(AxiosThrown(response)), stringify);
            var data := if response.Some? then response.value.data else Undefined;
            var tail := ": " + (if data.Str? then data.s else if data.Undefined? then "undefined" else stringify(data));
            r.Err? && r.error.ApiError? && EndsWith(r.error.message, tail)
    ensures response.None? ==> EndsWith(Request<E>(Rejected(AxiosThrown(response)), stringify).error.message, ": undefined")
  {
    var status := if response.Some? then Some(response.value.status) else None;
    var data := if response.Some? then response.value.data else Undefined;
    MessageEndsWithBody(status, data, stringify);
  }

  lemma MessageEndsWithBody(status: Option<int>, data: JsValue, stringify: JsValue -> string)
    ensures EndsWith(ApiErrorMessage(status, data, stringify), ": " + BodyText(data, stringify))
  {
    SuffixOfConcat(ApiErrorLead + StatusLabel(status), ": ", BodyText(data, stringify));
  }

  lemma SuffixOfConcat(x: string, y: string, z: string)
    ensures EndsWith(x + y + z, y + z)
  {
    assert x + y + z == x + (y + z);
    assert (x + (y + z))[|x|..] == y + z;
  }

  predicate EndsWith(s: string, suffix: string) {
    |suffix| <= |s| && s[|s| - |suffix|..] == suffix
  }

  /** The status survives into the rewritten message: it can be read back,
      whatever the body. */
  lemma ApiErrorKeepsStatus<E>(response: Option<Response>, stringify: JsValue -> string)
    ensures var r := Request<E>(Rejected(AxiosThrown(response)), stringify);
            r.Err? && r.error.ApiError?
            && MessageStatus(r.error.message) == Some(if response.Some? then Some(response.value.status) else None)
  {
    var status := if response.Some? then Some(response.value.status) else None;
    var data := if response.Some? then response.value.data else Undefined;
    MessageStatusOfMessage(status, BodyText(data, stringify));
  }
}
