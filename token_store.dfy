/** The token store: two interchangeable storage adapters (an in-memory map
    and a tamper-detecting wrapper around the browser's localStorage) and the
    `tokenStorage` facade that validates and persists the access and refresh
    tokens. */
module TokenStore {
  import opened Wrappers
  import JsStrings
  import Base64

  const AccessTokenKey := "access_token"
  const RefreshTokenKey := "refresh_token"
  /** SecureLocalStorage keeps every key under this prefix in localStorage. */
  const SecurePrefix := "__secure_"
  const InvalidAccessToken := "Invalid access token"

  /** The record SecureLocalStorage persists, as JSON, for each key. */
  datatype StoredRecord = StoredRecord(value: string, checksum: string, timestamp: int)

  /** The `value` and `checksum` properties of a parsed stored string; `None`
      where the property is absent or is not a string. */
  datatype ParsedRecord = ParsedRecord(value: Option<string>, checksum: Option<string>)

  /** JSON.stringify on records and JSON.parse back to their two properties;
      `parse` gives `None` where JSON.parse throws or yields null. */
  datatype RecordCodec = RecordCodec(stringify: StoredRecord -> string, parse: string -> Option<ParsedRecord>)

  /** What JSON guarantees of the codec: a stringified record is never empty
      and parses back to its own value and checksum. */
  ghost predicate Faithful(codec: RecordCodec) {
    forall r: StoredRecord :: codec.stringify(r) != ""
      && codec.parse(codec.stringify(r)) == Some(ParsedRecord(Some(r.value), Some(r.checksum)))
  }

  /** The part of the environment one write depends on: `Date.now()` at that
      write and whether localStorage accepts it (it throws when over quota). */
  datatype StorageEnv = StorageEnv(now: int, quotaAvailable: bool)

  function Lookup(m: map<string, string>, k: string): (r: Option<string>)
    ensures r.Some? <==> k in m
    ensures r.Some? ==> r.value == m[k]
  {
    if k in m then Some(m[k]) else None
  }

  /** `btoa` of the reversed value; `None` where `btoa` throws. */
  function GenerateChecksum(value: string): (c: Option<string>)
    ensures c.Some? <==> Base64.IsLatin1(value)
  {
    var reversed := JsStrings.Reverse(value);
    assert Base64.IsLatin1(reversed) <==> Base64.IsLatin1(value) by {
      if Base64.IsLatin1(reversed) {
        forall i | 0 <= i < |value| ensures value[i] as int < 256 {
          assert value[i] == reversed[|value| - 1 - i];
        }
      }
    }
    Base64.Btoa(reversed)
  }

  /** Distinct values never share a checksum. */
  lemma ChecksumInjective(v: string, w: string)
    requires GenerateChecksum(v).Some? && GenerateChecksum(v) == GenerateChecksum(w)
    ensures v == w
  {
    Base64.BtoaInjective(JsStrings.Reverse(v), JsStrings.Reverse(w));
    JsStrings.ReverseReverse(v);
    JsStrings.ReverseReverse(w);
  }

  /** `generateChecksum(value) === checksum`; `None` where generation throws. */
  function VerifyChecksum(value: string, checksum: Option<string>): (ok: Option<bool>)
    ensures ok.Some? <==> Base64.IsLatin1(value)
    ensures ok.Some? ==> (ok.value <==> checksum == GenerateChecksum(value))
  {
    match GenerateChecksum(value)
    case None => None
    case Some(c) => Some(checksum == Some(c))
  }

  /** How SecureLocalStorage classifies what localStorage holds for a key. */
  datatype ReadOutcome =
    | Missing      // nothing stored, or the empty string
    | Unreadable   // not JSON, no string value, or a value btoa rejects: read as null, kept
    | Verified(value: string)
    | Tampered     // checksum mismatch: read as null and removed
  {
    function AsItem(): Option<string> {
      if Verified? then Some(value) else None
    }
  }

  function Inspect(codec: RecordCodec, item: Option<string>): ReadOutcome {
    if item.None? || item.value == "" then Missing
    else match codec.parse(item.value)
      case None => Unreadable
      case Some(parsed) =>
        if parsed.value.None? then Unreadable
        else match VerifyChecksum(parsed.value.value, parsed.checksum)
          case None => Unreadable
          case Some(ok) => if ok then Verified(parsed.value.value) else Tampered
  }

  /** The string SecureLocalStorage writes for a value; `None` where the
      write is dropped because btoa or localStorage threw. */
  function Entry(codec: RecordCodec, value: string, env: StorageEnv): Option<string> {
    match GenerateChecksum(value)
    case None => None
    case Some(c) => if env.quotaAvailable then Some(codec.stringify(StoredRecord(value, c, env.now))) else None
  }

  /** A value SecureLocalStorage managed to write reads back unchanged. */
  lemma ReadAfterWrite(codec: RecordCodec, value: string, env: StorageEnv)
    requires Faithful(codec)
    requires Entry(codec, value, env).Some?
    ensures Inspect(codec, Entry(codec, value, env)) == Verified(value)
  {
    var c := GenerateChecksum(value).value;
    var r := StoredRecord(value, c, env.now);
    assert codec.parse(codec.stringify(r)) == Some(ParsedRecord(Some(value), Some(c)));
  }

  /** A record whose value was edited while its checksum was kept never reads
      as the edited value: it is discarded as tampered, or unreadable when the
      new value is outside Latin-1. */
  lemma EditedValueDetected(codec: RecordCodec, original: string, edited: string, item: string)
    requires GenerateChecksum(original).Some?
    requires edited != original
    requires item != ""
    requires codec.parse(item) == Some(ParsedRecord(Some(edited), GenerateChecksum(original)))
    ensures Inspect(codec, Some(item)) == if Base64.IsLatin1(edited) then Tampered else Unreadable
  {
    if Base64.IsLatin1(edited) && GenerateChecksum(edited) == GenerateChecksum(original) {
      ChecksumInjective(original, edited);
    }
  }

  /** The volatile adapter: a Map that lives as long as the page. */
  class MemoryStorage {
    var storage: map<string, string>

    constructor ()
      ensures storage == map[]
    {
      storage := map[];
    }

    method GetItem(key: string) returns (r: Option<string>)
      ensures r == Lookup(storage, key)
    {
      r := if key in storage then Some(storage[key]) else None;
    }

    method SetItem(key: string, value: string)
      modifies this
      ensures storage == old(storage)[key := value]
    {
      storage := storage[key := value];
    }

    method RemoveItem(key: string)
      modifies this
      ensures storage == old(storage) - {key}
    {
      storage := storage - {key};
    }

    method Clear()
      modifies this
      ensures storage == map[]
    {
      storage := map[];
    }
  }

  /** The durable adapter: records with a checksum in localStorage, each
      under SecurePrefix + key. */
  class SecureLocalStorage {
    /** The contents of localStorage. */
    var local: map<string, string>
    const codec: RecordCodec

    /** `persisted` is what localStorage already holds when the page loads. */
    constructor (codec: RecordCodec, persisted: map<string, string>)
      ensures this.codec == codec && local == persisted
    {
      this.codec := codec;
      local := persisted;
    }

    method GetItem(key: string) returns (r: Option<string>)
      modifies this
      ensures r == Inspect(codec, Lookup(old(local), SecurePrefix + key)).AsItem()
      ensures local == if Inspect(codec, Lookup(old(local), SecurePrefix + key)).Tampered?
                       then old(local) - {SecurePrefix + key} else old(local)
    {
      var slot := SecurePrefix + key;
      if slot !in local || local[slot] == "" {
        return None;
      }
      var parsed := codec.parse(local[slot]);
      if parsed.None? || parsed.value.value.None? {
        return None;
      }
      var value := parsed.value.value.value;
      var ok := VerifyChecksum(value, parsed.value.checksum);
      if ok.None? {
        return None;
      }
      if ok.value {
        return Some(value);
      }
      RemoveItem(key);
      return None;
    }

    method SetItem(key: string, value: string, env: StorageEnv)
      modifies this
      ensures local == match Entry(codec, value, env)
                       case None => old(local)
                       case Some(e) => old(local)[SecurePrefix + key := e]
    {
      var checksum := GenerateChecksum(value);
      if checksum.None? {
        return;
      }
      var data := codec.stringify(StoredRecord(value, checksum.value, env.now));
      if env.quotaAvailable {
        local := local[SecurePrefix + key := data];
      }
    }

    method RemoveItem(key: string)
      modifies this
      ensures local == old(local) - {SecurePrefix + key}
    {
      local := local - {SecurePrefix + key};
    }
  }

  /** The adapter chosen once, by configuration, when the store is created. */
  datatype StorageAdapter = Memory(memory: MemoryStorage) | SecureLocal(secure: SecureLocalStorage)

  /** The `tokenStorage` facade over the chosen adapter. */
  class TokenStorage {
    const adapter: StorageAdapter

    ghost predicate Valid() {
      adapter.SecureLocal? ==> Faithful(adapter.secure.codec)
    }

    constructor (useMemoryStorage: bool, codec: RecordCodec, persisted: map<string, string>)
      requires !useMemoryStorage ==> Faithful(codec)
      ensures Valid() && fresh(Target())
      ensures adapter.Memory? == useMemoryStorage
      ensures !useMemoryStorage ==> adapter.secure.codec == codec
      ensures Raw() == if useMemoryStorage then map[] else persisted
    {
      if useMemoryStorage {
        var m := new MemoryStorage();
        adapter := Memory(m);
      } else {
        var s := new SecureLocalStorage(codec, persisted);
        adapter := SecureLocal(s);
      }
    }

    /** The one object whose state the store changes. */
    function Target(): (t: object)
      ensures t is MemoryStorage || t is SecureLocalStorage
    {
      match adapter
      case Memory(m) => m
      case SecureLocal(s) => s
    }

    /** The backing map: the Map of MemoryStorage, or localStorage. */
    ghost function Raw(): map<string, string>
      reads Target()
    {
      match adapter
      case Memory(m) => m.storage
      case SecureLocal(s) => s.local
    }

    /** Where the adapter keeps a key in the backing map. */
    function Slot(key: string): string {
      if adapter.Memory? then key else SecurePrefix + key
    }

    lemma SlotInjective(k: string, j: string)
      requires Slot(k) == Slot(j)
      ensures k == j
    {
      if adapter.SecureLocal? {
        assert (SecurePrefix + k)[|SecurePrefix|..] == k;
        assert (SecurePrefix + j)[|SecurePrefix|..] == j;
      }
    }

    /** What the adapter's getItem returns for a backing entry. */
    ghost function Decode(item: Option<string>): Option<string> {
      match adapter
      case Memory(_) => item
      case SecureLocal(s) => Inspect(s.codec, item).AsItem()
    }

    /** What getItem(key) returns in the current state. */
    ghost function Stored(key: string): Option<string>
      reads Target()
    {
      Decode(Lookup(Raw(), Slot(key)))
    }

    /** The backing entry a write of `value` leaves, `None` if it is dropped. */
    ghost function Written(value: string, env: StorageEnv): Option<string> {
      match adapter
      case Memory(_) => Some(value)
      case SecureLocal(s) => Entry(s.codec, value, env)
    }

    /** The backing map after setItem(key, value). */
    ghost function Write(raw: map<string, string>, key: string, value: string, env: StorageEnv): map<string, string> {
      match Written(value, env)
      case None => raw
      case Some(e) => raw[Slot(key) := e]
    }

    /** The backing map after getItem(key): a tampered record is removed. */
    ghost function AfterRead(raw: map<string, string>, key: string): map<string, string> {
      match adapter
      case Memory(_) => raw
      case SecureLocal(s) =>
        if Inspect(s.codec, Lookup(raw, Slot(key))).Tampered? then raw - {Slot(key)} else raw
    }

    /** The backing map after a successful setTokens: each of the two
        writes meets its own environment (its own `Date.now()` and its own
        quota outcome). */
    ghost function AfterSetTokens(raw: map<string, string>, access: string, refresh: Option<string>,
                                  accessEnv: StorageEnv, refreshEnv: StorageEnv): map<string, string> {
      var withAccess := Write(raw, AccessTokenKey, access, accessEnv);
      if refresh.Some? && refresh.value != "" then Write(withAccess, RefreshTokenKey, refresh.value, refreshEnv) else withAccess
    }

    /** Purging on read hides nothing that was readable: every key reads the
        same before and after, and a second read purges nothing more. */
    lemma AfterReadKeepsReads(raw: map<string, string>, key: string, k: string)
      ensures Decode(Lookup(AfterRead(raw, key), Slot(k))) == Decode(Lookup(raw, Slot(k)))
      ensures AfterRead(AfterRead(raw, key), key) == AfterRead(raw, key)
    {
      if Slot(k) == Slot(key) {
        SlotInjective(k, key);
      }
    }

    /** A write that is not dropped reads back as the value written, and no
        other key reads differently. */
    lemma WriteThenRead(raw: map<string, string>, key: string, value: string, env: StorageEnv, k: string)
      requires Valid()
      ensures Decode(Lookup(Write(raw, key, value, env), Slot(key)))
              == if Written(value, env).Some? then Some(value) else Decode(Lookup(raw, Slot(key)))
      ensures k != key ==> Decode(Lookup(Write(raw, key, value, env), Slot(k))) == Decode(Lookup(raw, Slot(k)))
    {
      if adapter.SecureLocal? && Written(value, env).Some? {
        ReadAfterWrite(adapter.secure.codec, value, env);
      }
      if k != key && Slot(k) == Slot(key) {
        SlotInjective(k, key);
      }
    }

    /** storageAdapter.getItem(key). */
    method GetItem(key: string) returns (r: Option<string>)
      modifies Target()
      ensures r == old(Stored(key))
      ensures Raw() == AfterRead(old(Raw()), key)
      ensures forall k :: Stored(k) == old(Stored(k))
    {
      match adapter
      case Memory(m) =>
        r := m.GetItem(key);
      case SecureLocal(s) =>
        r := s.GetItem(key);
      forall k ensures Stored(k) == old(Stored(k)) {
        AfterReadKeepsReads(old(Raw()), key, k);
      }
    }

    /** storageAdapter.setItem(key, value). */
    method SetItem(key: string, value: string, env: StorageEnv)
      modifies Target()
      ensures Raw() == Write(old(Raw()), key, value, env)
    {
      match adapter
      case Memory(m) =>
        m.SetItem(key, value);
      case SecureLocal(s) =>
        s.SetItem(key, value, env);
    }

    /** storageAdapter.removeItem(key). */
    method RemoveItem(key: string)
      modifies Target()
      ensures Raw() == old(Raw()) - {Slot(key)}
    {
      match adapter
      case Memory(m) =>
        m.RemoveItem(key);
      case SecureLocal(s) =>
        s.RemoveItem(key);
    }

    method GetAccessToken() returns (r: Option<string>)
      modifies Target()
      ensures r == old(Stored(AccessTokenKey))
      ensures Raw() == AfterRead(old(Raw()), AccessTokenKey)
      ensures forall k :: Stored(k) == old(Stored(k))
    {
      r := GetItem(AccessTokenKey);
    }

    method GetRefreshToken() returns (r: Option<string>)
      modifies Target()
      ensures r == old(Stored(RefreshTokenKey))
      ensures Raw() == AfterRead(old(Raw()), RefreshTokenKey)
      ensures forall k :: Stored(k) == old(Stored(k))
    {
      r := GetItem(RefreshTokenKey);
    }

    /** Stores the access token, and the refresh token when one is given and
        non-empty; rejects an empty or whitespace-only access token without
        writing anything. */
    method SetTokens(accessToken: string, refreshToken: Option<string>, accessEnv: StorageEnv, refreshEnv: StorageEnv) returns (o: Outcome<string>)
      requires Valid()
      modifies Target()
      ensures JsStrings.IsBlank(accessToken) ==> o == Fail(InvalidAccessToken) && Raw() == old(Raw())
      ensures !JsStrings.IsBlank(accessToken) ==> o == Pass && Raw() == AfterSetTokens(old(Raw()), accessToken, refreshToken, accessEnv, refreshEnv)
      ensures !JsStrings.IsBlank(accessToken) ==>
                Stored(AccessTokenKey) == if Written(accessToken, accessEnv).Some? then Some(accessToken) else old(Stored(AccessTokenKey))
      ensures !JsStrings.IsBlank(accessToken) ==>
                Stored(RefreshTokenKey) == if refreshToken.Some? && refreshToken.value != "" && Written(refreshToken.value, refreshEnv).Some?
                                           then refreshToken else old(Stored(RefreshTokenKey))
      ensures forall k :: k != AccessTokenKey && k != RefreshTokenKey ==> Stored(k) == old(Stored(k))
    {
      JsStrings.TrimEmptyIff(accessToken);
      if accessToken == "" || |JsStrings.Trim(accessToken)| == 0 {
        return Fail(InvalidAccessToken);
      }
      ghost var raw0 := Raw();
      SetItem(AccessTokenKey, accessToken, accessEnv);
      ghost var raw1 := Raw();
      WriteThenRead(raw0, AccessTokenKey, accessToken, accessEnv, RefreshTokenKey);
      if refreshToken.Some? && refreshToken.value != "" {
        SetItem(RefreshTokenKey, refreshToken.value, refreshEnv);
        WriteThenRead(raw1, RefreshTokenKey, refreshToken.value, refreshEnv, AccessTokenKey);
      }
      forall k | k != AccessTokenKey && k != RefreshTokenKey ensures Stored(k) == old(Stored(k)) {
        WriteThenRead(raw0, AccessTokenKey, accessToken, accessEnv, k);
        WriteThenRead(raw1, RefreshTokenKey, refreshToken.GetOr(""), refreshEnv, k);
      }
      o := Pass;
    }

    /** Removes both tokens and nothing else. */
    method Clear()
      modifies Target()
      ensures Raw() == old(Raw()) - {Slot(AccessTokenKey), Slot(RefreshTokenKey)}
      ensures Stored(AccessTokenKey) == None && Stored(RefreshTokenKey) == None
      ensures forall k :: k != AccessTokenKey && k != RefreshTokenKey ==> Stored(k) == old(Stored(k))
    {
      RemoveItem(AccessTokenKey);
      RemoveItem(RefreshTokenKey);
      forall k | k != AccessTokenKey && k != RefreshTokenKey ensures Stored(k) == old(Stored(k)) {
        if Slot(k) == Slot(AccessTokenKey) { SlotInjective(k, AccessTokenKey); }
        if Slot(k) == Slot(RefreshTokenKey) { SlotInjective(k, RefreshTokenKey); }
      }
    }

    /** `!!getItem(access_token)`: true exactly when an access token reads
        back non-empty; reading purges a tampered record. */
    method HasTokens() returns (b: bool)
      modifies Target()
      ensures b <==> old(Stored(AccessTokenKey)).Some? && old(Stored(AccessTokenKey)).value != ""
      ensures Raw() == AfterRead(old(Raw()), AccessTokenKey)
      ensures forall k :: Stored(k) == old(Stored(k))
    {
      var token := GetItem(AccessTokenKey);
      b := token.Some? && token.value != "";
    }
  }
}
