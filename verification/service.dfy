/** The service as a state machine: every request is one transition of the
    store, and the invariant that the database constraints and the upload
    logic keep together holds in every state a run can reach. */
module Service {
  import opened Text
  import opened Models
  import opened Api

  /** The two functions the model does not look inside: the SHA-256 hex
      digest and the HTTP-date formatter of `strftime`. */
  datatype Env = Env(hash: Bytes -> HexDigest, httpDate: Time -> string)

  datatype Request =
    | Upload(filename: string, contentType: Option<string>, content: Bytes)
    | Download(assetId: string, ifNoneMatch: Option<string>)
    | HeadDownload(assetId: string)
    | Publish(assetId: string)
    | GetPublic(versionId: string)
    | HeadPublic(versionId: string)
    | IssueToken(assetId: string)
    | GetPrivate(token: string)

  /** The values the randomness sources would give this request: uuid4
      (the new asset or version id) and token_urlsafe (a new token). */
  datatype Entropy = Entropy(uuid: string, token: string)

  /** One request, the clock reading when it is served, and its entropy. */
  datatype Event = Event(request: Request, now: Time, drawn: Entropy)

  predicate ReadOnly(r: Request) {
    r.Download? || r.HeadDownload? || r.GetPublic? || r.HeadPublic? || r.GetPrivate?
  }

  function Step(st: Store, e: Event, env: Env): (o: Outcome)
    ensures ReadOnly(e.request) ==> o.store == st
  {
    match e.request
    case Upload(filename, contentType, content) =>
      UploadAsset(st, filename, contentType, content, e.drawn.uuid, e.now, env.hash)
    case Download(id, ifNoneMatch) => Outcome(st, DownloadAsset(st, id, ifNoneMatch, env.httpDate))
    case HeadDownload(id) => Outcome(st, HeadAsset(st, id, env.httpDate))
    case Publish(id) => PublishAsset(st, id, e.drawn.uuid, e.now)
    case GetPublic(id) => Outcome(st, GetPublicVersion(st, id, env.httpDate))
    case HeadPublic(id) => Outcome(st, HeadPublicVersion(st, id, env.httpDate))
    case IssueToken(id) => GenerateAccessToken(st, id, e.drawn.token, e.now)
    case GetPrivate(token) => Outcome(st, GetPrivateAsset(st, token, e.now, env.httpDate))
  }

  /** The store after serving `events` in order. */
  function Run(st: Store, events: seq<Event>, env: Env): Store
    decreases |events|
  {
    if |events| == 0 then st else Run(Step(st, events[0], env).store, events[1..], env)
  }

  // ---------------------------------------------------------------------
  // The invariant
  // ---------------------------------------------------------------------

  /** The blob under an asset's key is the content its etag and size
      describe. */
  predicate Faithful(blobs: map<string, Bytes>, a: Asset, hash: Bytes -> HexDigest) {
    && a.objectStorageKey in blobs
    && hash(blobs[a.objectStorageKey]) == a.etag
    && |blobs[a.objectStorageKey]| == a.sizeBytes
  }

  /** What upload establishes for an asset row: a UUID id, the key derived
      from id and file name, a blob matching etag and size, and the default
      visibility (nothing ever sets is_private). */
  predicate AssetValid(id: string, a: Asset, blobs: map<string, Bytes>, hash: Bytes -> HexDigest) {
    && IsUuidText(id)
    && a.objectStorageKey == StorageKey(id, a.filename)
    && Faithful(blobs, a, hash)
    && !a.isPrivate
  }

  predicate AssetsValid(assets: map<string, Asset>, blobs: map<string, Bytes>, hash: Bytes -> HexDigest) {
    forall id :: id in assets ==> AssetValid(id, assets[id], blobs, hash)
  }

  /** A version still carries its asset's storage key and etag. */
  predicate Mirrors(assets: map<string, Asset>, v: AssetVersion) {
    && v.assetId in assets
    && assets[v.assetId].objectStorageKey == v.objectStorageKey
    && assets[v.assetId].etag == v.etag
  }

  predicate VersionsMirror(versions: map<string, AssetVersion>, assets: map<string, Asset>) {
    forall v :: v in versions ==> Mirrors(assets, versions[v])
  }

  predicate Valid(st: Store, hash: Bytes -> HexDigest) {
    && Consistent(st)
    && AssetsValid(st.assets, st.blobs, hash)
    && VersionsMirror(st.versions, st.assets)
  }

  /** uuid4 gives UUID text that no asset has yet. */
  predicate FreshFor(st: Store, e: Event) {
    e.request.Upload? ==> IsUuidText(e.drawn.uuid) && e.drawn.uuid !in st.assets
  }

  /** Freshness along a whole run, each event judged in the state it meets. */
  predicate FreshRun(st: Store, events: seq<Event>, env: Env)
    decreases |events|
  {
    |events| > 0 ==>
      FreshFor(st, events[0]) && FreshRun(Step(st, events[0], env).store, events[1..], env)
  }

  lemma EmptyStoreValid(hash: Bytes -> HexDigest)
    ensures Valid(EmptyStore, hash)
  {
  }

  /** A fresh UUID gives a storage key no asset uses. */
  lemma FreshKeyUnused(st: Store, id: string, filename: string, hash: Bytes -> HexDigest)
    requires Valid(st, hash)
    requires IsUuidText(id) && id !in st.assets
    ensures !AssetKeyTaken(st, StorageKey(id, filename))
  {
    if AssetKeyTaken(st, StorageKey(id, filename)) {
      var other :| other in st.assets
        && st.assets[other].objectStorageKey == StorageKey(id, filename);
      UuidHasNoUnderscore(id);
      UuidHasNoUnderscore(other);
      StorageKeyInjective(other, st.assets[other].filename, id, filename);
      assert false;
    }
  }

  lemma UploadPreservesValid(
    st: Store, filename: string, contentType: Option<string>, content: Bytes,
    id: string, now: Time, hash: Bytes -> HexDigest)
    requires Valid(st, hash)
    requires IsUuidText(id) && id !in st.assets
    ensures var o := UploadAsset(st, filename, contentType, content, id, now, hash);
      (o.response.status == 200 <==> contentType.Some?) && Valid(o.store, hash)
  {
    if contentType.Some? {
      var key := StorageKey(id, filename);
      var o := UploadAsset(st, filename, contentType, content, id, now, hash);
      FreshKeyUnused(st, id, filename, hash);
      assert o.store.assets == st.assets[id := o.store.assets[id]];
      AssetsStayValid(st, o.store, id, o.store.assets[id], key, content, hash);
    }
  }

  /** Adding one valid asset whose key no other asset uses, and writing
      only that key's blob, keeps every other asset valid and every version
      mirrored. */
  lemma AssetsStayValid(
    st: Store, next: Store, id: string, a: Asset, key: string, blob: Bytes, hash: Bytes -> HexDigest)
    requires Valid(st, hash)
    requires next.versions == st.versions
    requires next.assets == st.assets[id := a] && id !in st.assets
    requires !AssetKeyTaken(st, key)
    requires next.blobs == st.blobs[key := blob]
    requires AssetValid(id, a, next.blobs, hash)
    ensures AssetsValid(next.assets, next.blobs, hash)
    ensures VersionsMirror(next.versions, next.assets)
  {
    forall other | other in next.assets
      ensures AssetValid(other, next.assets[other], next.blobs, hash)
    {
      if other != id {
        assert AssetValid(other, st.assets[other], st.blobs, hash);
      }
    }
    forall v | v in next.versions ensures Mirrors(next.assets, next.versions[v]) {
      assert Mirrors(st.assets, st.versions[v]);
    }
  }

  lemma PublishPreservesValid(st: Store, assetId: string, versionId: string, now: Time, hash: Bytes -> HexDigest)
    requires Valid(st, hash)
    ensures Valid(PublishAsset(st, assetId, versionId, now).store, hash)
  {
    var o := PublishAsset(st, assetId, versionId, now);
    if o.response.status == 200 {
      forall v | v in o.store.versions ensures Mirrors(o.store.assets, o.store.versions[v]) {
        if v != versionId {
          assert Mirrors(st.assets, st.versions[v]);
        }
      }
    }
  }

  lemma IssuePreservesValid(st: Store, assetId: string, token: string, now: Time, hash: Bytes -> HexDigest)
    requires Valid(st, hash)
    ensures Valid(GenerateAccessToken(st, assetId, token, now).store, hash)
  {
  }

  lemma StepPreservesValid(st: Store, e: Event, env: Env)
    requires Valid(st, env.hash)
    requires FreshFor(st, e)
    ensures Valid(Step(st, e, env).store, env.hash)
  {
    match e.request
    case Upload(filename, contentType, content) =>
      UploadPreservesValid(st, filename, contentType, content, e.drawn.uuid, e.now, env.hash);
    case Publish(id) =>
      PublishPreservesValid(st, id, e.drawn.uuid, e.now, env.hash);
    case IssueToken(id) =>
      IssuePreservesValid(st, id, e.drawn.token, e.now, env.hash);
    case _ =>
  }

  /** Every state a run with fresh identifiers reaches is valid. */
  lemma {:induction false} RunPreservesValid(st: Store, events: seq<Event>, env: Env)
    requires Valid(st, env.hash)
    requires FreshRun(st, events, env)
    ensures Valid(Run(st, events, env), env.hash)
    decreases |events|
  {
    if |events| > 0 {
      StepPreservesValid(st, events[0], env);
      RunPreservesValid(Step(st, events[0], env).store, events[1..], env);
    }
  }

  // ---------------------------------------------------------------------
  // What a step never changes
  // ---------------------------------------------------------------------

  /** No request updates or deletes a row: assets, versions and tokens are
      only ever inserted. */
  lemma StepKeepsRows(st: Store, e: Event, env: Env)
    ensures var next := Step(st, e, env).store;
      && (forall id :: id in st.assets ==> id in next.assets && next.assets[id] == st.assets[id])
      && (forall v :: v in st.versions ==> v in next.versions && next.versions[v] == st.versions[v])
      && (forall t :: t in st.tokens ==> t in next.tokens && next.tokens[t] == st.tokens[t])
  {
  }

  /** In a valid store, a step with a fresh upload id leaves the blob under
      every asset's key as it was. */
  lemma StepKeepsStoredContent(st: Store, e: Event, env: Env, id: string)
    requires Valid(st, env.hash)
    requires FreshFor(st, e)
    requires id in st.assets
    ensures var next := Step(st, e, env).store;
      && st.assets[id].objectStorageKey in next.blobs
      && next.blobs[st.assets[id].objectStorageKey] == st.blobs[st.assets[id].objectStorageKey]
  {
    assert AssetValid(id, st.assets[id], st.blobs, env.hash);
    match e.request
    case Upload(filename, _, _) =>
      FreshKeyUnused(st, e.drawn.uuid, filename, env.hash);
    case _ =>
  }
}
