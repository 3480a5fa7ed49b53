/** resolveTenant: pick a tenant code from the token claim, the host or the
    `/t/` path, in that order, then ask the caller's fetcher for the tenant. */
module TenantResolver {
  import opened Wrappers
  import opened JsValues
  import opened JsStrings
  import opened TenantTypes

  const CannotResolve := "Tenant cannot be resolved"
  const FetcherRequired := "fetchTenant handler is required"
  const PathMarker := "/t/"

  /** The fetcher's promise either fulfils with a tenant or rejects with a reason. */
  type Fetcher = string -> Result<TenantInfo, JsValue>

  datatype ResolverOptions = ResolverOptions(
    host: Option<string>,
    path: Option<string>,
    tokenPayload: Option<map<string, string>>,
    fetchTenant: Option<Fetcher>)

  /** Why resolveTenant rejects: one of its own errors, or the fetcher's rejection passed on. */
  datatype ResolveError = Thrown(message: string) | FetchRejected(reason: JsValue)

  /** The code the chosen branch produced, and the branch. */
  datatype Selection = Selection(code: string, source: TenantSource)

  /** `tokenPayload?.tenant`, with a missing payload or claim read as "". */
  function Claim(o: ResolverOptions): string {
    if o.tokenPayload.Some? && "tenant" in o.tokenPayload.value then o.tokenPayload.value["tenant"] else ""
  }

  /** `host` is truthy. */
  predicate HasHost(o: ResolverOptions) {
    o.host.Some? && o.host.value != ""
  }

  /** `path?.startsWith('/t/')`. */
  predicate HasTenantPath(o: ResolverOptions) {
    o.path.Some? && |o.path.value| >= |PathMarker| && o.path.value[..|PathMarker|] == PathMarker
  }

  /** A path that starts with "/t/" splits on '/' into "", "t" and the pieces
      of what follows the marker. */
  lemma PathPieces(p: string)
    requires |p| >= |PathMarker| && p[..|PathMarker|] == PathMarker
    ensures |Split(p, '/')| >= 3 && Split(p, '/') == ["", "t"] + Split(p[|PathMarker|..], '/')
  {
    var rest := p[|PathMarker|..];
    assert p == [] + ['/'] + ("t" + ['/'] + rest);
    SplitAfterSegment([], '/', "t" + ['/'] + rest);
    SplitAfterSegment("t", '/', rest);
  }

  /** The if / else-if chain of resolveTenant: the first truthy source wins,
      whatever code it yields. */
  function SelectCode(o: ResolverOptions): Option<Selection> {
    if Claim(o) != "" then Some(Selection(Claim(o), Token))
    else if HasHost(o) then Some(Selection(Split(o.host.value, '.')[0], Host))
    else if HasTenantPath(o) then
      PathPieces(o.path.value);
      Some(Selection(Split(o.path.value, '/')[2], Path))
    else None
  }

  /** resolveTenant. */
  function ResolveTenant(o: ResolverOptions): (r: Result<TenantResolutionResult, ResolveError>)
    ensures r.Ok? ==> r.value.source != Manual
    ensures r.Ok? ==> SelectCode(o).Some? && SelectCode(o).value.code != "" && o.fetchTenant.Some?
    ensures r.Ok? ==> o.fetchTenant.value(SelectCode(o).value.code) == Ok(r.value.tenant)
                      && r.value.source == SelectCode(o).value.source
  {
    var selection := SelectCode(o);
    if selection.None? || selection.value.code == "" then Err(Thrown(CannotResolve))
    else if o.fetchTenant.None? then Err(Thrown(FetcherRequired))
    else
      match o.fetchTenant.value(selection.value.code)
      case Ok(tenant) => Ok(TenantResolutionResult(tenant, selection.value.source))
      case Err(reason) => Err(FetchRejected(reason))
  }

  /** The documented resolution order, stated without split: the claim if
      there is one; else the host's text before its first '.'; else the text
      after "/t/" up to the next '/'. */
  predicate Derives(o: ResolverOptions, s: Selection) {
    if Claim(o) != "" then s == Selection(Claim(o), Token)
    else if HasHost(o) then s.source == Host && IsFirstSegment(o.host.value, '.', s.code)
    else if HasTenantPath(o) then s.source == Path && IsFirstSegment(o.path.value[|PathMarker|..], '/', s.code)
    else false
  }

  /** SelectCode chooses exactly the selection the resolution order describes. */
  lemma SelectCodeMatchesOrder(o: ResolverOptions, s: Selection)
    ensures SelectCode(o) == Some(s) <==> Derives(o, s)
  {
    if Claim(o) == "" && HasHost(o) {
      if Derives(o, s) {
        FirstSegmentUnique(o.host.value, '.', s.code, Split(o.host.value, '.')[0]);
      }
    } else if Claim(o) == "" && HasTenantPath(o) {
      var p := o.path.value;
      PathPieces(p);
      if Derives(o, s) {
        FirstSegmentUnique(p[|PathMarker|..], '/', s.code, Split(p, '/')[2]);
      }
    }
  }

  /** There is no fallback: a host whose first label is empty (".x.com")
      fails even when the path names a tenant. */
  lemma NoFallbackToPath(o: ResolverOptions)
    requires Claim(o) == "" && HasHost(o) && o.host.value[0] == '.'
    ensures ResolveTenant(o) == Err(Thrown(CannotResolve))
  {
    assert IsFirstSegment(o.host.value, '.', "");
    FirstSegmentUnique(o.host.value, '.', "", Split(o.host.value, '.')[0]);
  }

  /** A truthy claim decides the outcome alone: host and path play no part. */
  lemma ClaimOverridesHostAndPath(o: ResolverOptions, host: Option<string>, path: Option<string>)
    requires Claim(o) != ""
    ensures ResolveTenant(o) == ResolveTenant(o.(host := host, path := path))
  {
  }

  /** The missing fetcher is reported only once a code has been derived;
      without a code the resolver reports that first. */
  lemma ResolvableCheckedFirst(o: ResolverOptions)
    ensures ResolveTenant(o) == Err(Thrown(CannotResolve)) <==>
              (forall s :: Derives(o, s) ==> s.code == "")
    ensures ResolveTenant(o) == Err(Thrown(FetcherRequired)) <==>
              o.fetchTenant.None? && exists s :: Derives(o, s) && s.code != ""
  {
    var sel := SelectCode(o);
    if sel.Some? {
      SelectCodeMatchesOrder(o, sel.value);
      forall s | Derives(o, s)
        ensures s == sel.value
      {
        SelectCodeMatchesOrder(o, s);
      }
    } else {
      forall s | Derives(o, s)
        ensures false
      {
        SelectCodeMatchesOrder(o, s);
      }
    }
  }

  /** With a code and a fetcher, the fetcher's answer is returned unchanged:
      its tenant with the branch's source, or its rejection. */
  lemma FetchResultPassedOn(o: ResolverOptions, s: Selection, f: Fetcher)
    requires Derives(o, s) && s.code != "" && o.fetchTenant == Some(f)
    ensures f(s.code).Ok? ==> ResolveTenant(o) == Ok(TenantResolutionResult(f(s.code).value, s.source))
    ensures f(s.code).Err? ==> ResolveTenant(o) == Err(FetchRejected(f(s.code).error))
  {
    SelectCodeMatchesOrder(o, s);
  }
}
