/** The response interceptor that recovers from an expired access token: at
    most one refresh call in flight, requests that fail with 401 meanwhile
    wait in a FIFO queue, and the queue is drained once, either resolving
    and replaying every entry or rejecting every entry. The asynchronous
    handler is modelled as three events: a failure reaches the interceptor,
    the refresh call succeeds, the refresh call fails. */
module RefreshToken {
  import opened Wrappers
  import opened Http
  import TokenStore
  import RequestAuth
  import JsStrings

  const RefreshPath := "/auth/refresh"
  const LoginRoute := "/login"
  const Unauthorized := 401

  /** What a waiting request or the triggering request is rejected with. */
  datatype Failure =
    | AxiosFailure(response: Option<Response>)  // the refresh call's own failure
    | ErrorThrown(message: string)              // setTokens rejecting the new access token

  /** POST {baseURL}/auth/refresh with body {refreshToken}. */
  datatype RefreshCall = RefreshCall(url: string, refreshToken: Option<string>)

  /** How processQueue settled one queued request. */
  datatype Settlement = Resolved(request: RequestConfig, token: string) | Rejected(request: RequestConfig, error: Failure)

  /** A request sent again through axiosClient, with the Authorization header it carried. */
  datatype Replay = Replay(request: RequestConfig, authorization: Option<string>)

  /** What handleAuthError does with one failure. */
  datatype Handling =
    | PassedOn(response: Option<Response>)  // rejected with the same error
    | Queued                                // waits for the refresh in flight
    | RefreshStarted(call: RefreshCall)

  /** How the request that started a refresh ends. */
  datatype Completion = TriggerReplayed(request: RequestConfig) | TriggerRejected(error: Failure)

  /** The guard of handleAuthError: a 401 response to a request not yet retried. */
  predicate Recoverable(response: Option<Response>, retried: bool) {
    response.Some? && response.value.status == Unauthorized && !retried
  }

  function Settle(request: RequestConfig, error: Option<Failure>, token: string): Settlement {
    if error.Some? then Rejected(request, error.value) else Resolved(request, token)
  }

  /** processQueue's verdicts on a queue, in queue order. */
  function Settlements(queue: seq<RequestConfig>, error: Option<Failure>, token: string): seq<Settlement> {
    seq(|queue|, i requires 0 <= i < |queue| => Settle(queue[i], error, token))
  }

  /** The requests of a settlement log, in order. */
  function Requests(s: seq<Settlement>): seq<RequestConfig> {
    seq(|s|, i requires 0 <= i < |s| => s[i].request)
  }

  /** Each queued request gets exactly one verdict, and the verdicts come in
      queue order. */
  lemma RequestsOfSettlements(queue: seq<RequestConfig>, error: Option<Failure>, token: string)
    ensures Requests(Settlements(queue, error, token)) == queue
  {
  }

  lemma RequestsAppend(s: seq<Settlement>, t: seq<Settlement>)
    ensures Requests(s + t) == Requests(s) + Requests(t)
  {
  }

  /** The Authorization header a resolved request is sent with: the
      coordinator sets Bearer <token>, and the request interceptor, which
      runs again on the replay, overwrites it with the stored token if one
      reads back. */
  function ReplayHeaders(headers: map<string, string>, stored: Option<string>, token: string): map<string, string> {
    RequestAuth.AttachedHeaders(headers[AuthorizationHeader := RequestAuth.Bearer(token)], stored)
  }

  /** The Authorization value a resolved request is replayed with. */
  function ReplayAuthorization(stored: Option<string>, token: string): string {
    ReplayHeaders(map[], stored, token)[AuthorizationHeader]
  }

  /** The replays of a resolved queue, in queue order. */
  function Replays(queue: seq<RequestConfig>, stored: Option<string>, token: string): seq<Replay> {
    seq(|queue|, i requires 0 <= i < |queue| => Replay(queue[i], Some(ReplayAuthorization(stored, token))))
  }

  /** When the store reads back the new token, every replay carries it. */
  lemma ReplayCarriesToken(headers: map<string, string>, token: string)
    ensures ReplayHeaders(headers, Some(token), token)[AuthorizationHeader] == RequestAuth.Bearer(token)
  {
  }

  class RefreshCoordinator {
    var isRefreshing: bool
    var failedQueue: seq<RequestConfig>
    /** The request whose 401 started the refresh in flight (the handler's
        suspended `originalRequest`). */
    var trigger: RequestConfig?
    /** axiosClient.defaults.headers.Authorization */
    var defaultAuthorization: Option<string>
    const store: TokenStore.TokenStorage
    /** axiosClient.defaults.baseURL */
    const baseUrl: string

    ghost var refreshCalls: seq<RefreshCall>
    /** How many refresh calls have completed, with success or failure. */
    ghost var completed: nat
    /** Every request that has joined the queue, in arrival order. */
    ghost var enqueued: seq<RequestConfig>
    ghost var settled: seq<Settlement>
    ghost var replays: seq<Replay>
    /** Values assigned to window.location.href. */
    ghost var navigations: seq<string>

    ghost predicate Valid()
      reads this, failedQueue, trigger
    {
      && store.Valid()
      && (!isRefreshing ==> failedQueue == [] && trigger == null)
      && (isRefreshing ==> trigger != null && trigger.retry && trigger !in failedQueue)
      && (forall i :: 0 <= i < |failedQueue| ==> failedQueue[i].retry)
      && (forall i, j :: 0 <= i < j < |failedQueue| ==> failedQueue[i] != failedQueue[j])
      // single flight: every refresh call but the one in flight has completed
      && |refreshCalls| == completed + (if isRefreshing then 1 else 0)
      // FIFO: every request that ever waited is settled, in arrival order, or still waits
      && enqueued == Requests(settled) + failedQueue
    }

    constructor (store: TokenStore.TokenStorage, baseUrl: string)
      requires store.Valid()
      ensures Valid()
      ensures this.store == store && this.baseUrl == baseUrl
      ensures !isRefreshing && failedQueue == [] && trigger == null && defaultAuthorization == None
      ensures refreshCalls == [] && completed == 0 && enqueued == [] && settled == [] && replays == [] && navigations == []
    {
      this.store := store;
      this.baseUrl := baseUrl;
      isRefreshing := false;
      failedQueue := [];
      trigger := null;
      defaultAuthorization := None;
      refreshCalls := [];
      completed := 0;
      enqueued := [];
      settled := [];
      replays := [];
      navigations := [];
    }

    /** handleAuthError: a failed request reaches the interceptor. */
    method OnAuthError(response: Option<Response>, request: RequestConfig) returns (h: Handling)
      requires Valid()
      modifies this, request, store.Target()
      ensures Valid()
      ensures !Recoverable(response, old(request.retry)) ==>
                h == PassedOn(response) && unchanged(this, request) && unchanged(store.Target())
      ensures Recoverable(response, old(request.retry)) ==>
                request.retry && request.headers == old(request.headers)
                && defaultAuthorization == old(defaultAuthorization) && completed == old(completed)
                && settled == old(settled) && replays == old(replays) && navigations == old(navigations)
      ensures Recoverable(response, old(request.retry)) && old(isRefreshing) ==>
                h == Queued && isRefreshing && trigger == old(trigger)
                && failedQueue == old(failedQueue) + [request] && enqueued == old(enqueued) + [request]
                && refreshCalls == old(refreshCalls) && unchanged(store.Target())
      ensures Recoverable(response, old(request.retry)) && !old(isRefreshing) ==>
                var call := RefreshCall(baseUrl + RefreshPath, old(store.Stored(TokenStore.RefreshTokenKey)));
                h == RefreshStarted(call) && isRefreshing && trigger == request
                && failedQueue == [] && enqueued == old(enqueued)
                && refreshCalls == old(refreshCalls) + [call]
                && store.Raw() == store.AfterRead(old(store.Raw()), TokenStore.RefreshTokenKey)
                && (forall k :: store.Stored(k) == old(store.Stored(k)))
    {
      if !Recoverable(response, request.retry) {
        return PassedOn(response);
      }
      request.retry := true;
      if isRefreshing {
        failedQueue := failedQueue + [request];
        enqueued := enqueued + [request];
        return Queued;
      }
      isRefreshing := true;
      trigger := request;
      var refreshToken := store.GetRefreshToken();
      var call := RefreshCall(baseUrl + RefreshPath, refreshToken);
      refreshCalls := refreshCalls + [call];
      h := RefreshStarted(call);
    }

    /** The refresh call returned {accessToken, refreshToken}. */
    method OnRefreshSucceeded(accessToken: string, newRefresh: Option<string>, accessEnv: TokenStore.StorageEnv, refreshEnv: TokenStore.StorageEnv) returns (c: Completion)
      requires Valid() && isRefreshing
      modifies this, failedQueue, trigger, store.Target()
      ensures Valid()
      ensures !isRefreshing && failedQueue == [] && trigger == null
      ensures completed == old(completed) + 1 && refreshCalls == old(refreshCalls) && enqueued == old(enqueued)
      ensures old(trigger).retry && forall i :: 0 <= i < |old(failedQueue)| ==> old(failedQueue)[i].retry
      ensures JsStrings.IsBlank(accessToken) ==>
                old(trigger).headers == old(trigger.headers)
                && forall i :: 0 <= i < |old(failedQueue)| ==> old(failedQueue)[i].headers == old(failedQueue[i].headers)
      ensures JsStrings.IsBlank(accessToken) ==>
                var err := ErrorThrown(TokenStore.InvalidAccessToken);
                c == TriggerRejected(err)
                && settled == old(settled) + Settlements(old(failedQueue), Some(err), "")
                && replays == old(replays)
                && store.Raw() == old(store.Raw()) - {store.Slot(TokenStore.AccessTokenKey), store.Slot(TokenStore.RefreshTokenKey)}
                && navigations == old(navigations) + [LoginRoute]
                && defaultAuthorization == old(defaultAuthorization)
      ensures !JsStrings.IsBlank(accessToken) ==>
                var stored := if store.Written(accessToken, accessEnv).Some? then Some(accessToken)
                              else old(store.Stored(TokenStore.AccessTokenKey));
                c == TriggerReplayed(old(trigger))
                && settled == old(settled) + Settlements(old(failedQueue), None, accessToken)
                && replays == old(replays) + Replays(old(failedQueue), stored, accessToken)
                              + [Replay(old(trigger), Some(ReplayAuthorization(stored, accessToken)))]
                && (forall i :: 0 <= i < |old(failedQueue)| ==>
                      old(failedQueue)[i].headers == ReplayHeaders(old(failedQueue[i].headers), stored, accessToken))
                && old(trigger).headers == ReplayHeaders(old(trigger.headers), stored, accessToken)
                && store.Raw() == store.AfterRead(store.AfterSetTokens(old(store.Raw()), accessToken, newRefresh, accessEnv, refreshEnv), TokenStore.AccessTokenKey)
                && store.Stored(TokenStore.AccessTokenKey) == stored
                && navigations == old(navigations)
                && defaultAuthorization == Some(RequestAuth.Bearer(accessToken))
    {
      var o := store.SetTokens(accessToken, newRefresh, accessEnv, refreshEnv);
      if o.Fail? {
        c := Abandon(ErrorThrown(o.error));
        return;
      }
      c := Resume(accessToken);
    }

    /** The rest of the try block once the tokens are stored: set the default
        header, resolve the queue, replay the request that started the
        refresh; then the finally block. */
    method Resume(accessToken: string) returns (c: Completion)
      requires Valid() && isRefreshing
      modifies this, failedQueue, trigger, store.Target()
      ensures Valid()
      ensures !isRefreshing && failedQueue == [] && trigger == null
      ensures completed == old(completed) + 1 && refreshCalls == old(refreshCalls) && enqueued == old(enqueued)
      ensures c == TriggerReplayed(old(trigger))
      ensures settled == old(settled) + Settlements(old(failedQueue), None, accessToken)
      ensures var stored := old(store.Stored(TokenStore.AccessTokenKey));
              replays == old(replays) + Replays(old(failedQueue), stored, accessToken)
                         + [Replay(old(trigger), Some(ReplayAuthorization(stored, accessToken)))]
      ensures forall i :: 0 <= i < |old(failedQueue)| ==>
                old(failedQueue)[i].headers == ReplayHeaders(old(failedQueue[i].headers), old(store.Stored(TokenStore.AccessTokenKey)), accessToken)
      ensures old(trigger).headers == ReplayHeaders(old(trigger.headers), old(store.Stored(TokenStore.AccessTokenKey)), accessToken)
      // the replayed requests stay marked, so a second 401 on a replay is passed on
      ensures old(trigger).retry && forall i :: 0 <= i < |old(failedQueue)| ==> old(failedQueue)[i].retry
      ensures store.Raw() == store.AfterRead(old(store.Raw()), TokenStore.AccessTokenKey)
      ensures store.Stored(TokenStore.AccessTokenKey) == old(store.Stored(TokenStore.AccessTokenKey))
      ensures navigations == old(navigations)
      ensures defaultAuthorization == Some(RequestAuth.Bearer(accessToken))
    {
      ghost var raw := store.Raw();
      defaultAuthorization := Some(RequestAuth.Bearer(accessToken));
      ProcessQueue(None, accessToken);
      store.AfterReadKeepsReads(raw, TokenStore.AccessTokenKey, TokenStore.AccessTokenKey);
      c := ReplayTrigger(accessToken);
    }

    /** The last statements of the try block, then the finally block. */
    method ReplayTrigger(accessToken: string) returns (c: Completion)
      requires isRefreshing && trigger != null
      modifies this`replays, this`isRefreshing, this`trigger, this`completed, trigger, store.Target()
      ensures !isRefreshing && trigger == null && completed == old(completed) + 1
      ensures c == TriggerReplayed(old(trigger))
      ensures replays == old(replays) + [Replay(old(trigger), Some(ReplayAuthorization(old(store.Stored(TokenStore.AccessTokenKey)), accessToken)))]
      ensures old(trigger).headers == ReplayHeaders(old(trigger.headers), old(store.Stored(TokenStore.AccessTokenKey)), accessToken)
      ensures old(trigger).retry == old(trigger.retry)
      ensures store.Raw() == store.AfterRead(old(store.Raw()), TokenStore.AccessTokenKey)
    {
      var t := trigger;
      t.headers := t.headers[AuthorizationHeader := RequestAuth.Bearer(accessToken)];
      Send(t);
      c := TriggerReplayed(t);
      isRefreshing := false;
      trigger := null;
      completed := completed + 1;
    }

    /** The refresh call failed with `err`. */
    method OnRefreshFailed(err: Failure) returns (c: Completion)
      requires Valid() && isRefreshing
      modifies this, failedQueue, trigger, store.Target()
      ensures Valid()
      ensures !isRefreshing && failedQueue == [] && trigger == null
      ensures c == TriggerRejected(err)
      ensures completed == old(completed) + 1 && refreshCalls == old(refreshCalls) && enqueued == old(enqueued)
      ensures settled == old(settled) + Settlements(old(failedQueue), Some(err), "")
      ensures replays == old(replays)
      ensures store.Raw() == old(store.Raw()) - {store.Slot(TokenStore.AccessTokenKey), store.Slot(TokenStore.RefreshTokenKey)}
      ensures navigations == old(navigations) + [LoginRoute]
      ensures defaultAuthorization == old(defaultAuthorization)
      ensures old(trigger).headers == old(trigger.headers) && old(trigger).retry == old(trigger.retry)
      ensures forall i :: 0 <= i < |old(failedQueue)| ==>
                old(failedQueue)[i].headers == old(failedQueue[i].headers) && old(failedQueue)[i].retry == old(failedQueue[i].retry)
    {
      c := Abandon(err);
    }

    /** The catch and finally blocks: reject every waiting request, clear the
        tokens, send the user to the login page. */
    method Abandon(err: Failure) returns (c: Completion)
      requires Valid() && isRefreshing
      modifies this, failedQueue, store.Target()
      ensures Valid()
      ensures !isRefreshing && failedQueue == [] && trigger == null
      ensures c == TriggerRejected(err)
      ensures completed == old(completed) + 1 && refreshCalls == old(refreshCalls) && enqueued == old(enqueued)
      ensures settled == old(settled) + Settlements(old(failedQueue), Some(err), "")
      ensures replays == old(replays)
      ensures store.Raw() == old(store.Raw()) - {store.Slot(TokenStore.AccessTokenKey), store.Slot(TokenStore.RefreshTokenKey)}
      ensures navigations == old(navigations) + [LoginRoute]
      ensures defaultAuthorization == old(defaultAuthorization)
      ensures old(trigger).headers == old(trigger.headers) && old(trigger).retry == old(trigger.retry)
      ensures forall i :: 0 <= i < |old(failedQueue)| ==>
                old(failedQueue)[i].headers == old(failedQueue[i].headers) && old(failedQueue)[i].retry == old(failedQueue[i].retry)
    {
      ProcessQueue(Some(err), "");
      store.Clear();
      navigations := navigations + [LoginRoute];
      c := TriggerRejected(err);
      isRefreshing := false;
      trigger := null;
      completed := completed + 1;
    }

    /** axiosClient(request): the request interceptor runs again, then the
        request is sent. */
    method Send(request: RequestConfig)
      modifies request, store.Target(), this`replays
      ensures request.headers == RequestAuth.AttachedHeaders(old(request.headers), old(store.Stored(TokenStore.AccessTokenKey)))
      ensures request.retry == old(request.retry)
      ensures replays == old(replays) + [Replay(request, TokenStore.Lookup(request.headers, AuthorizationHeader))]
      ensures store.Raw() == store.AfterRead(old(store.Raw()), TokenStore.AccessTokenKey)
      ensures forall k :: store.Stored(k) == old(store.Stored(k))
    {
      var sent := RequestAuth.AttachAuthToken(store, request);
      replays := replays + [Replay(sent, TokenStore.Lookup(sent.headers, AuthorizationHeader))];
    }

    /** processQueue(error, token): settles every waiting request once, in
        queue order, and empties the queue. A resolved request gets
        Bearer <token> and is replayed. */
    method ProcessQueue(error: Option<Failure>, token: string)
      requires Valid() && isRefreshing
      modifies this`settled, this`replays, this`failedQueue, failedQueue, store.Target()
      ensures failedQueue == [] && enqueued == Requests(settled)
      ensures settled == old(settled) + Settlements(old(failedQueue), error, token)
      ensures error.Some? ==> replays == old(replays) && store.Raw() == old(store.Raw())
      ensures error.Some? ==> forall i :: 0 <= i < |old(failedQueue)| ==> old(failedQueue)[i].headers == old(failedQueue[i].headers)
      ensures forall i :: 0 <= i < |old(failedQueue)| ==> old(failedQueue)[i].retry == old(failedQueue[i].retry)
      ensures error.None? ==> replays == old(replays) + Replays(old(failedQueue), old(store.Stored(TokenStore.AccessTokenKey)), token)
      ensures error.None? ==> forall i :: 0 <= i < |old(failedQueue)| ==>
                old(failedQueue)[i].headers == ReplayHeaders(old(failedQueue[i].headers), old(store.Stored(TokenStore.AccessTokenKey)), token)
      ensures error.None? ==> store.Raw() == if old(failedQueue) == [] then old(store.Raw())
                                             else store.AfterRead(old(store.Raw()), TokenStore.AccessTokenKey)
    {
      var queue := failedQueue;
      RequestsAppend(settled, Settlements(queue, error, token));
      RequestsOfSettlements(queue, error, token);
      settled := settled + Settlements(queue, error, token);
      if error.None? {
        ResolveAll(queue, token);
      }
      failedQueue := [];
    }

    /** The forEach of processQueue when there is no error: each waiting
        request, in queue order, is resolved with the token. */
    method ResolveAll(queue: seq<RequestConfig>, token: string)
      requires forall i, j :: 0 <= i < j < |queue| ==> queue[i] != queue[j]
      modifies this`replays, queue, store.Target()
      ensures replays == old(replays) + Replays(queue, old(store.Stored(TokenStore.AccessTokenKey)), token)
      ensures forall i :: 0 <= i < |queue| ==>
                queue[i].headers == ReplayHeaders(old(queue[i].headers), old(store.Stored(TokenStore.AccessTokenKey)), token)
      ensures forall i :: 0 <= i < |queue| ==> queue[i].retry == old(queue[i].retry)
      ensures store.Raw() == if queue == [] then old(store.Raw()) else store.AfterRead(old(store.Raw()), TokenStore.AccessTokenKey)
    {
      ghost var stored := store.Stored(TokenStore.AccessTokenKey);
      ghost var raw := store.Raw();
      ghost var purged := store.AfterRead(raw, TokenStore.AccessTokenKey);
      store.AfterReadKeepsReads(raw, TokenStore.AccessTokenKey, TokenStore.AccessTokenKey);
      var i := 0;
      while i < |queue|
        invariant 0 <= i <= |queue|
        invariant replays == old(replays) + Replays(queue[..i], stored, token)
        invariant store.Raw() == if i == 0 then raw else purged
        invariant forall j :: 0 <= j < |queue| ==>
                    queue[j].headers == if j < i then ReplayHeaders(old(queue[j].headers), stored, token) else old(queue[j].headers)
        invariant forall j :: 0 <= j < |queue| ==> queue[j].retry == old(queue[j].retry)
        modifies this`replays, queue, store.Target()
      {
        Resolve(queue[i], token);
        i := i + 1;
      }
    }

    /** The resolve callback a waiting request left in the queue: it takes the
        new token and replays the request. */
    method Resolve(r: RequestConfig, token: string)
      modifies this`replays, r, store.Target()
      ensures replays == old(replays) + [Replay(r, Some(ReplayAuthorization(old(store.Stored(TokenStore.AccessTokenKey)), token)))]
      ensures r.headers == ReplayHeaders(old(r.headers), old(store.Stored(TokenStore.AccessTokenKey)), token)
      ensures r.retry == old(r.retry)
      ensures store.Raw() == store.AfterRead(old(store.Raw()), TokenStore.AccessTokenKey)
    {
      r.headers := r.headers[AuthorizationHeader := RequestAuth.Bearer(token)];
      Send(r);
    }
  }
}
