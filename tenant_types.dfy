/** The tenant records the resolver hands back. */
module TenantTypes {
  import opened Wrappers
  import opened JsValues

  type TenantId = string

  /** What the tenant fetcher returns; the optional fields may be absent. */
  datatype TenantInfo = TenantInfo(
    id: TenantId,
    code: string,
    name: string,
    apiBaseUrl: string,
    theme: Option<string>,
    features: Option<map<string, bool>>,
    metadata: Option<map<string, JsValue>>)

  /** Where a tenant code was found; `Manual` is part of the type but the
      resolver never reports it. */
  datatype TenantSource = Host | Path | Token | Manual

  datatype TenantResolutionResult = TenantResolutionResult(tenant: TenantInfo, source: TenantSource)
}
