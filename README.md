# DPM-Shared authentication, error and tenant core, in Dafny

This project models the parts of the DPM-Shared front-end library that carry
behaviour worth stating:

- **Token store** (`TokenStore`). There are two storage adapters:
  - `MemoryStorage`, a map that lives as long as the page;
  - `SecureLocalStorage`, which keeps `{value, checksum, timestamp}` records in localStorage under `__secure_` + key. Its checksum is `btoa` of the reversed value. It drops a record whose checksum does not match when that record is read.

  The `tokenStorage` facade sits over the chosen adapter. It validates the access token, stores the refresh token only when one is given, and provides `clear` and `hasTokens`. The two adapters are classes whose methods update their maps in place; `TokenStorage` is a class that owns no map and updates the chosen adapter's map through it. The facade's contracts speak about the backing map (`Raw`) and about what `getItem` would return for each key (`Stored`).
- **Credential attacher** (`RequestAuth`). The request interceptor sets `Authorization: Bearer <token>` (section 2.1 of RFC 6750) when the store holds a non-empty access token. It updates the request config in place and returns that same config.
- **Refresh coordinator** (`RefreshToken`). The response interceptor is modelled as a class, `RefreshCoordinator`, holding:
  - `isRefreshing`;
  - the FIFO `failedQueue`;
  - the request whose 401 started the refresh;
  - the client's default Authorization header;
  - ghost logs of refresh calls, completed refreshes, queued requests, settlements (resolved or rejected), replays and navigations.

  The asynchronous handler becomes three events:
  - a failure reaches the interceptor;
  - the refresh call succeeds with new tokens;
  - the refresh call fails.

  The class invariant states three things. At most one refresh call is in flight. Every request that ever waited has been settled once, in arrival order, or is still waiting. Every waiting request carries `_retry`.
- **Error classification** (`HttpErrors`). `mapAxiosError` is a total function from "response present, status, body" to a typed `HttpError`. The status codes are those of section 15 of RFC 9110.
- **Tenant resolution** (`TenantResolver`, `TenantTypes`). The first applicable source wins: a truthy token claim, then a truthy host up to its first '.', then, for a path that starts with `/t/`, the segment after that marker. There are two distinct errors, and the caller's fetcher is called once.
- **Request builder** (`BaseApi`). It covers:
  - the `/api<basePath>/v<version>` URL prefix;
  - the config each of `get`, `post`, `put` and `delete` builds;
  - how `request` passes on a reply or rewrites an axios failure into `API Error <status|Network>: <body>`.

Supporting modules:
- `Wrappers`: Option, Result and Outcome.
- `JsStrings`: `split` on one character, `join`, reversal, `trim`, and decimal rendering and parsing of integers.
- `Base64`: `btoa` as in section 4 of RFC 4648, on Latin-1 strings, with its inverse.
- `JsValues`: response bodies as JavaScript values, with truthiness and `String(v)`.
- `Http`: responses and the mutable request config.

Several things are parameters rather than modelled:
- JSON: a `RecordCodec` value, assumed faithful (stringify is non-empty and parses back).
- `Date.now()` and whether localStorage accepts a write: a `StorageEnv` value per write, so the two writes of `setTokens` meet their quota and clock separately.
- `JSON.stringify` on response bodies: a function argument.
- The tenant fetcher: a function argument whose result is a `Result`.
- `VITE_USE_MEMORY_STORAGE`: a constructor argument of `TokenStorage`.

## Model

| member | source | states |
|---|---|---|
| `TokenStore.GenerateChecksum` | src/utils/tokenStorage.ts:58-61 | A checksum exists exactly when the value is Latin-1. Otherwise `btoa` throws. |
| `TokenStore.ChecksumInjective` | src/utils/tokenStorage.ts:58-61 | Two values with the same checksum are equal. Proved from the base64 round trip and from reversal undoing itself. |
| `TokenStore.VerifyChecksum` | src/utils/tokenStorage.ts:63-65 | Verification fails to run exactly when generation throws. When it runs, it is true exactly when the stored checksum equals the generated one. |
| `TokenStore.Lookup` | src/utils/tokenStorage.ts:75-77 | `storage.get(key) ?? null` is present exactly when the key is in the map, and it is the mapped value. |
| `TokenStore.ReadAfterWrite` | src/utils/tokenStorage.ts:26-48 | A record that `setItem` managed to write reads back through `getItem` as the same value, verified. |
| `TokenStore.EditedValueDetected` | src/utils/tokenStorage.ts:33-38 | A record whose value was changed while its checksum was kept never reads as the changed value. It is classed as tampered, or as unreadable when the new value is outside Latin-1. |
| `TokenStore.MemoryStorage.constructor` | src/utils/tokenStorage.ts:73 | The map starts empty. |
| `TokenStore.MemoryStorage.GetItem` | src/utils/tokenStorage.ts:75-77 | Returns the mapped value, or null when the key is absent. |
| `TokenStore.MemoryStorage.SetItem` | src/utils/tokenStorage.ts:79-81 | The map now sends the key to the value. Nothing else changes. |
| `TokenStore.MemoryStorage.RemoveItem` | src/utils/tokenStorage.ts:83-85 | The key is gone. Nothing else changes. |
| `TokenStore.MemoryStorage.Clear` | src/utils/tokenStorage.ts:87-89 | The map is empty. |
| `TokenStore.SecureLocalStorage.constructor` | src/utils/tokenStorage.ts:23-24 | Starts over whatever localStorage already holds. |
| `TokenStore.SecureLocalStorage.GetItem` | src/utils/tokenStorage.ts:26-42 | Covers every outcome of a read. A missing or empty entry is null. Unparseable JSON, a missing value, or a value `btoa` rejects is null, and the entry is kept. A checksum match gives the value. A mismatch gives null and removes the entry. |
| `TokenStore.SecureLocalStorage.SetItem` | src/utils/tokenStorage.ts:44-52 | The prefixed key gets the record of the value, its checksum and the time. If `btoa` or the write throws, localStorage is exactly as it was. |
| `TokenStore.SecureLocalStorage.RemoveItem` | src/utils/tokenStorage.ts:54-56 | Removes the prefixed key and nothing else. |
| `TokenStore.TokenStorage.constructor` | src/utils/tokenStorage.ts:93-96 | The configuration flag chooses the adapter. The memory adapter starts empty. The secure adapter uses the given record codec and starts over the persisted localStorage. |
| `TokenStore.TokenStorage.SlotInjective` | src/utils/tokenStorage.ts:24 | Prefixing keeps distinct keys distinct, so the access and refresh records never share an entry. |
| `TokenStore.TokenStorage.AfterReadKeepsReads` | src/utils/tokenStorage.ts:36-38 | Purging a tampered record on read changes what no key reads. A second read purges nothing more. |
| `TokenStore.TokenStorage.WriteThenRead` | src/utils/tokenStorage.ts:44-48 | After a write that was not dropped, the key reads back the written value. A dropped write leaves the old reading. Every other key reads as before. |
| `TokenStore.TokenStorage.GetItem` | src/utils/tokenStorage.ts:15 | Returns what the adapter reads for the key, possibly purging a tampered record. What every key reads is unchanged. |
| `TokenStore.TokenStorage.SetItem` | src/utils/tokenStorage.ts:16 | The backing map is the adapter's write of the value under the key's slot. |
| `TokenStore.TokenStorage.RemoveItem` | src/utils/tokenStorage.ts:17 | Removes the key's slot and nothing else. |
| `TokenStore.TokenStorage.GetAccessToken` | src/utils/tokenStorage.ts:99 | Returns the stored access token. Reading it changes what no key reads. |
| `TokenStore.TokenStorage.GetRefreshToken` | src/utils/tokenStorage.ts:100 | Returns the stored refresh token. Reading it changes what no key reads. |
| `TokenStore.TokenStorage.SetTokens` | src/utils/tokenStorage.ts:102-112 | An empty or whitespace-only access token fails with 'Invalid access token' and writes nothing. Otherwise the access token is written. The refresh token is written only when it is given and non-empty; otherwise the old refresh token still reads back. Each write meets its own quota outcome and clock, so the access token can be stored while the refresh write is dropped. Each key reads the new value unless its own write was dropped, and no other key changes. |
| `TokenStore.TokenStorage.Clear` | src/utils/tokenStorage.ts:114-117 | Both token slots are removed, so both keys read null. Every other key reads as before. Repeating it changes nothing further. |
| `TokenStore.TokenStorage.HasTokens` | src/utils/tokenStorage.ts:122-124 | True exactly when the access key reads back a non-empty string, so a tampered record gives false and is purged. Nothing else changes. |
| `RequestAuth.Bearer` | src/api/interceptors/request.auth.ts:8 | The header value parses back to its token (section 2.1 of RFC 6750). |
| `RequestAuth.AttachedHeadersSpec` | src/api/interceptors/request.auth.ts:7-9 | A non-empty token sets Authorization to its bearer value. No token, or an empty one, leaves the headers unchanged. Every other header is untouched. |
| `RequestAuth.AttachAuthToken` | src/api/interceptors/request.auth.ts:4-12 | Returns the very config it got. Its headers are the attachment of the stored access token, and `_retry` is untouched. Reading may purge a tampered record; what every key reads is unchanged. |
| `RefreshToken.RequestsOfSettlements` | src/api/interceptors/response.refreshToken.ts:11-17 | processQueue gives every queued request exactly one verdict, in queue order. |
| `RefreshToken.ReplayCarriesToken` | src/api/interceptors/response.refreshToken.ts:33-35 | When the store reads back the new token, a resolved request is replayed with Bearer and that token. |
| `RefreshToken.RefreshCoordinator.constructor` | src/api/interceptors/response.refreshToken.ts:5-9 | Starts idle with an empty queue and empty logs. The invariant holds. |
| `RefreshToken.RefreshCoordinator.OnAuthError` | src/api/interceptors/response.refreshToken.ts:19-49 | A failure that is not a 401, or whose request is already `_retry`, is passed on and nothing changes. Otherwise the request is marked `_retry`. While a refresh runs, the request is appended to the queue and no refresh call is made. When idle, exactly one refresh call is logged, to baseURL + '/auth/refresh' with the stored refresh token. The invariant holds in every case. |
| `RefreshToken.RefreshCoordinator.OnRefreshSucceeded` | src/api/interceptors/response.refreshToken.ts:44-67 | If `setTokens` rejects the new access token, the queue is rejected with that error, tokens are cleared and '/login' is visited once. Otherwise the tokens are stored and the default header set. The queue is resolved in order with the token and each entry replayed. The trigger is replayed last with the same header. In both cases the coordinator ends idle with an empty queue, and the trigger and every queued request stay marked `_retry`. On the rejecting path their headers are untouched. |
| `RefreshToken.RefreshCoordinator.Resume` | src/api/interceptors/response.refreshToken.ts:54-67 | Sets the default header, then resolves and replays the whole queue in order. The trigger is replayed after it. All of them stay marked `_retry`, so a second 401 on a replay is passed on. Afterwards the coordinator is idle, and what the store reads is unchanged. |
| `RefreshToken.RefreshCoordinator.ReplayTrigger` | src/api/interceptors/response.refreshToken.ts:58-67 | The triggering request gets Bearer <token> and is replayed with its `_retry` flag kept, and the refresh is marked complete. |
| `RefreshToken.RefreshCoordinator.OnRefreshFailed` | src/api/interceptors/response.refreshToken.ts:60-67 | Every queued request is rejected with the refresh error, in order, and nothing is replayed. The trigger and the queued requests keep their headers and `_retry` flag. Both tokens are cleared, '/login' is visited once, and the coordinator is idle. |
| `RefreshToken.RefreshCoordinator.Abandon` | src/api/interceptors/response.refreshToken.ts:60-67 | The catch and finally blocks: rejects the queue, clears both tokens, navigates once and returns to idle with the invariant. The trigger and the queued requests keep their headers and `_retry` flag. |
| `RefreshToken.RefreshCoordinator.Send` | src/api/interceptors/response.refreshToken.ts:35 | A replay goes through the credential attacher again and is logged with the Authorization it carries. What the store reads is unchanged. |
| `RefreshToken.RefreshCoordinator.ProcessQueue` | src/api/interceptors/response.refreshToken.ts:11-17 | Settles each queued request exactly once, in order: rejected when there is an error, otherwise resolved with the token and replayed. Every request keeps its `_retry` flag, and a rejected one keeps its headers. Afterwards the queue is empty, and every request that ever waited is settled. |
| `RefreshToken.RefreshCoordinator.ResolveAll` | src/api/interceptors/response.refreshToken.ts:12-15 | The forEach resolves every entry in order. Each gets the replay header, keeps its `_retry` flag and is replayed once. |
| `RefreshToken.RefreshCoordinator.Resolve` | src/api/interceptors/response.refreshToken.ts:33-36 | The resolve callback sets Bearer <token> and replays the request, which keeps its `_retry` flag. |
| `HttpErrors.MapAxiosError` | src/api/httpError.ts:26-48 | No response gives exactly the 'Network error' NETWORK error, and NETWORK arises only then. With a response the status is kept. BUSINESS is never produced. |
| `HttpErrors.ClassifiedByStatus` | src/api/httpError.ts:34-46 | With a response, VALIDATION arises exactly for 400. The four fixed kinds arise only for 401, 403, 404 and 500. UNKNOWN arises exactly for every other status. |
| `HttpErrors.FixedOutcomes` | src/api/httpError.ts:37-44 | 401, 403, 404 and 500 give UNAUTHORIZED 'Unauthorized', FORBIDDEN 'Forbidden', NOT_FOUND 'Not found' and SERVER 'Server error', each with its status and no details, whatever the body. |
| `HttpErrors.FixedKindDeterminesStatus` | src/api/httpError.ts:37-44 | Two responses classified into the same fixed kind had the same status. |
| `HttpErrors.BodyCarriedFor` | src/api/httpError.ts:35-46 | VALIDATION and UNKNOWN carry the whole body as details, and `body.message` as their message when truthy, else their fallback message. The fixed kinds carry no details. |
| `HttpErrors.ServerMessageKept` | src/api/httpError.ts:36 | For a status other than the fixed ones, a non-empty string `message` in the body becomes the error's message. |
| `JsValues.OrElse` | src/api/httpError.ts:36 | `data?.message`, or the fallback when it is falsy: a falsy value gives the fallback, a non-empty string gives itself. |
| `TenantResolver.PathPieces` | src/tenant/tenantResolver.ts:30-31 | A path that starts with '/t/' splits on '/' into "", "t" and the pieces after the marker, so index 2 exists. |
| `TenantResolver.ResolveTenant` | src/tenant/tenantResolver.ts:16-49 | A success always used a derived non-empty code and an existing fetcher. It returns the fetcher's tenant for that code with the branch's source, never 'manual'. |
| `TenantResolver.SelectCodeMatchesOrder` | src/tenant/tenantResolver.ts:24-33 | The if / else-if chain selects exactly what the documented order describes, in both directions. A claim gives itself; otherwise a host gives its text up to the first '.'; otherwise a '/t/' path gives its text up to the next '/'. |
| `TenantResolver.NoFallbackToPath` | src/tenant/tenantResolver.ts:24-37 | A host whose first label is empty fails with 'Tenant cannot be resolved', whatever the path holds. |
| `TenantResolver.ClaimOverridesHostAndPath` | src/tenant/tenantResolver.ts:24-26 | With a truthy claim the outcome does not depend on host or path. |
| `TenantResolver.ResolvableCheckedFirst` | src/tenant/tenantResolver.ts:35-41 | 'Tenant cannot be resolved' arises exactly when no source derives a non-empty code. 'fetchTenant handler is required' arises exactly when a code was derived and there is no fetcher. |
| `TenantResolver.FetchResultPassedOn` | src/tenant/tenantResolver.ts:43-48 | Given a code and a fetcher, the fetcher's tenant comes back with the source, and its rejection is passed on unchanged. |
| `JsStrings.Split` | src/tenant/tenantResolver.ts:28 | `split` yields at least one piece, none holding the separator, and the first piece is the text up to the first separator. |
| `JsStrings.Reverse` | src/utils/tokenStorage.ts:60 | `split('').reverse().join('')` keeps the length and mirrors positions. |
| `JsStrings.TrimEmptyIff` | src/utils/tokenStorage.ts:104 | `trim()` is empty exactly when every character is whitespace. |
| `Base64.Btoa` | src/utils/tokenStorage.ts:60 | `btoa` succeeds exactly on Latin-1 strings. |
| `Base64.AtobEncode` | src/utils/tokenStorage.ts:60 | Decoding the base64 text gives back the string. |
| `Base64.BtoaInjective` | src/utils/tokenStorage.ts:60 | `btoa` maps distinct strings to distinct texts. |
| `BaseApi.NewApi` | src/api/baseApi.ts:22-27 | The constructor keeps its arguments and fixes the prefix `UrlPrefix` builds from them: '/api', the base path, '/v' and the decimal version. |
| `BaseApi.PrefixVersionRoundTrip` | src/api/baseApi.ts:26 | The version can be read back from the prefix built from it. |
| `BaseApi.PrefixSeparatesVersions` | src/api/baseApi.ts:26 | Two versions of one resource never share a prefix. |
| `BaseApi.VerbsAddressTheirEndpoint` | src/api/baseApi.ts:47-80 | The config builders `Api.Get`, `Api.Post`, `Api.Put` and `Api.Delete` address prefix + endpoint with the instance's signal. GET carries only params; POST and PUT only the body; DELETE neither. |
| `BaseApi.Request` | src/api/baseApi.ts:28-45 | Success returns the reply's data unchanged. Every axios failure becomes an API Error. Every other error is rethrown unchanged, and only those. |
| `BaseApi.StatusLabelReadsBack` | src/api/baseApi.ts:38 | `status ?? 'Network'` has no ':' and reads back as the status or as its absence. |
| `BaseApi.ApiErrorKeepsStatus` | src/api/baseApi.ts:34-41 | The message of a rewritten axios failure always lets the status, or its absence, be read back, whatever the body. |
| `BaseApi.ApiErrorKeepsBody` | src/api/baseApi.ts:37-41 | The message of a rewritten axios failure ends with ': ' and the body: the string itself for a string body, 'undefined' for no body or no response, and the JSON text otherwise. |

## Left out

- Promises and the event loop. Each interceptor call is one synchronous event, and nothing interleaves inside an event. The refresh request is sent between `OnAuthError` and one of `OnRefreshSucceeded` or `OnRefreshFailed`.
- What a replayed request eventually resolves to: the network is not modelled. A replay is a log entry, with the request and the Authorization it carried.
- `axios.post`, `axiosClient`, localStorage and `window.location`. They are respectively a logged call, the replay log, a map field and a navigation log.
- JSON. `JSON.parse` and `JSON.stringify` of stored records are the `RecordCodec` argument; stringify on response bodies is a function argument.
- Floating point. Body numbers, statuses and API versions are unbounded integers printed in plain decimal, so `/v1.5`, `NaN`, the loss of exactness above 2^53 and JavaScript's exponent form for magnitudes of 1e21 and above (`1e+21`) are not modelled.
- `Date.now()`. It is stored in each record but never read back; it is a parameter.
- The whitespace set of `trim()`. It follows the ECMAScript WhiteSpace and LineTerminator lists as far as they are written in `JsStrings.IsWhitespace`.
- A localStorage `getItem` that throws, such as one disabled by privacy settings. This is not modelled; reads always see the map.
- `console.error` in `SecureLocalStorage.setItem`.
- `processQueue`'s `if (error)` test. The model decides by the presence of an error. Every error the coordinator passes is an object, which is truthy, so nothing is lost.
- The client default header (`axiosClient.defaults.headers.Authorization`). It is recorded. The source never clears it on failure, and the model does not either.
- The chain order. The error-mapping interceptor runs after this one (src/api/interceptors/register.ts:8-9). So a replay's own failure arrives already converted and is classified again as NETWORK. That wiring is not part of this model.
- `BaseApi.Request` sees axios errors before the mapping interceptor only in the model. With the interceptors installed, failures reach `request` as `HttpError`s, which are not axios errors, and are rethrown unchanged.
- `AbortSignal`. Only its identity is kept.
- `TenantConfig` (src/tenant/types.ts) and the rest of the tenant module: loader, provider, context and hooks.
- `RefreshToken.RefreshCoordinator.ProcessQueue`: a rejection is one settlement log entry; what the rejected caller does with it is not modelled.
- `RefreshToken.RefreshCoordinator.Send`: it does not model the response of the replayed request, only that it was sent with the attached headers.
- `JsStrings.Reverse` reverses Unicode scalar values, where `split('').reverse().join('')` reverses UTF-16 code units and so swaps the halves of a surrogate pair. No checksum differs as a result, because `btoa` rejects both forms of any string outside Latin-1.
- The refresh response's `accessToken` and `refreshToken` are taken to be strings. A missing, null or other falsy `accessToken` fails `!accessToken` with 'Invalid access token', as "" does in the model. A truthy non-string one makes `trim` throw a TypeError, which is not modelled. A truthy non-string refresh token would be kept as it is by the memory adapter and dropped by the secure one, which is not modelled either.
- `RefreshToken.RefreshCoordinator.Send` treats the request object and the config axios builds from it for sending as one object. In axios the request interceptor writes the stored token on that merged copy, so the original keeps the `Bearer <new token>` the coordinator set. Nothing reads the original afterwards, and the copy carries `_retry` too.
