/** The three record types of the entity store (assets, asset_versions,
    access_tokens), the blob store beside them, and the constraints the
    database enforces when a transaction commits. */
module Models {
  import opened Text

  /** An instant, in microseconds (the resolution of Python's datetime). */
  type Time = int

  /** A mutable content record. `isPrivate` defaults to false and
      `createdAt` is filled in by the database at insert time. */
  datatype Asset = Asset(
    id: string,
    objectStorageKey: string,
    filename: string,
    mimeType: string,
    sizeBytes: nat,
    etag: string,
    isPrivate: bool,
    createdAt: Time)

  /** An immutable snapshot: the storage key and etag of its asset at
      publish time. */
  datatype AssetVersion = AssetVersion(
    id: string,
    assetId: string,
    objectStorageKey: string,
    etag: string,
    createdAt: Time)

  /** A bearer capability for one asset, keyed by the token string. */
  datatype AccessToken = AccessToken(
    token: string,
    assetId: string,
    expiresAt: Time,
    createdAt: Time)

  /** Each table maps its primary key to its row; the blob store maps an
      object key to the bytes stored under it. */
  datatype Store = Store(
    assets: map<string, Asset>,
    versions: map<string, AssetVersion>,
    tokens: map<string, AccessToken>,
    blobs: map<string, Bytes>)

  const EmptyStore := Store(map[], map[], map[], map[])

  /** The database constraints an insert can violate. */
  datatype Constraint =
    | AssetPrimaryKey
    | AssetStorageKeyUnique
    | VersionPrimaryKey
    | VersionStorageKeyUnique
    | VersionAssetForeignKey
    | TokenPrimaryKey
    | TokenAssetForeignKey

  /** The result of committing one insert: the new store, or the
      constraint that made the database roll the transaction back. */
  datatype Commit = Committed(store: Store) | Rejected(violated: Constraint)

  // ---------------------------------------------------------------------
  // Constraints
  // ---------------------------------------------------------------------

  predicate AssetKeyTaken(st: Store, key: string) {
    exists id :: id in st.assets && st.assets[id].objectStorageKey == key
  }

  predicate VersionKeyTaken(st: Store, key: string) {
    exists id :: id in st.versions && st.versions[id].objectStorageKey == key
  }

  /** Every row sits under its own primary key. */
  predicate KeyedByPrimaryKey(st: Store) {
    && (forall id :: id in st.assets ==> st.assets[id].id == id)
    && (forall id :: id in st.versions ==> st.versions[id].id == id)
    && (forall t :: t in st.tokens ==> st.tokens[t].token == t)
  }

  /** `unique=True` on both object_storage_key columns. */
  predicate StorageKeysUnique(st: Store) {
    && (forall i, j :: i in st.assets && j in st.assets && i != j ==>
          st.assets[i].objectStorageKey != st.assets[j].objectStorageKey)
    && (forall i, j :: i in st.versions && j in st.versions && i != j ==>
          st.versions[i].objectStorageKey != st.versions[j].objectStorageKey)
  }

  /** The non-null foreign keys of versions and tokens into assets. */
  predicate ForeignKeysHold(st: Store) {
    && (forall id :: id in st.versions ==> st.versions[id].assetId in st.assets)
    && (forall t :: t in st.tokens ==> st.tokens[t].assetId in st.assets)
  }

  /** Everything the database schema guarantees of a committed state. */
  predicate Consistent(st: Store) {
    KeyedByPrimaryKey(st) && StorageKeysUnique(st) && ForeignKeysHold(st)
  }

  lemma EmptyStoreConsistent()
    ensures Consistent(EmptyStore)
  {
  }

  // ---------------------------------------------------------------------
  // Inserts (db.add followed by db.commit)
  // ---------------------------------------------------------------------

  function InsertAsset(st: Store, a: Asset): (r: Commit)
    ensures r.Rejected? <==> a.id in st.assets || AssetKeyTaken(st, a.objectStorageKey)
    ensures r.Rejected? ==> r.violated in {AssetPrimaryKey, AssetStorageKeyUnique}
    ensures r.Committed? ==>
      && r.store.assets.Keys == st.assets.Keys + {a.id}
      && r.store.assets[a.id] == a
      && (forall id :: id in st.assets ==> r.store.assets[id] == st.assets[id])
      && r.store.versions == st.versions
      && r.store.tokens == st.tokens
      && r.store.blobs == st.blobs
    ensures Consistent(st) && r.Committed? ==> Consistent(r.store)
  {
    if a.id in st.assets then Rejected(AssetPrimaryKey)
    else if AssetKeyTaken(st, a.objectStorageKey) then Rejected(AssetStorageKeyUnique)
    else Committed(st.(assets := st.assets[a.id := a]))
  }

  function InsertVersion(st: Store, v: AssetVersion): (r: Commit)
    ensures r.Rejected? <==>
      || v.id in st.versions
      || VersionKeyTaken(st, v.objectStorageKey)
      || v.assetId !in st.assets
    ensures r.Rejected? ==>
      r.violated in {VersionPrimaryKey, VersionStorageKeyUnique, VersionAssetForeignKey}
    ensures r.Committed? ==>
      && r.store.versions.Keys == st.versions.Keys + {v.id}
      && r.store.versions[v.id] == v
      && (forall id :: id in st.versions ==> r.store.versions[id] == st.versions[id])
      && r.store.assets == st.assets
      && r.store.tokens == st.tokens
      && r.store.blobs == st.blobs
    ensures Consistent(st) && r.Committed? ==> Consistent(r.store)
  {
    if v.id in st.versions then Rejected(VersionPrimaryKey)
    else if VersionKeyTaken(st, v.objectStorageKey) then Rejected(VersionStorageKeyUnique)
    else if v.assetId !in st.assets then Rejected(VersionAssetForeignKey)
    else Committed(st.(versions := st.versions[v.id := v]))
  }

  function InsertToken(st: Store, t: AccessToken): (r: Commit)
    ensures r.Rejected? <==> t.token in st.tokens || t.assetId !in st.assets
    ensures r.Rejected? ==> r.violated in {TokenPrimaryKey, TokenAssetForeignKey}
    ensures r.Committed? ==>
      && r.store.tokens.Keys == st.tokens.Keys + {t.token}
      && r.store.tokens[t.token] == t
      && (forall k :: k in st.tokens ==> r.store.tokens[k] == st.tokens[k])
      && r.store.assets == st.assets
      && r.store.versions == st.versions
      && r.store.blobs == st.blobs
    ensures Consistent(st) && r.Committed? ==> Consistent(r.store)
  {
    if t.token in st.tokens then Rejected(TokenPrimaryKey)
    else if t.assetId !in st.assets then Rejected(TokenAssetForeignKey)
    else Committed(st.(tokens := st.tokens[t.token := t]))
  }

  // ---------------------------------------------------------------------
  // Queries (query(...).filter(X.key == k).first())
  // ---------------------------------------------------------------------

  function FindAsset(st: Store, id: string): (r: Option<Asset>)
    ensures r.Some? ==> r.value in st.assets.Values
    ensures KeyedByPrimaryKey(st) ==>
      (r.Some? <==> exists k :: k in st.assets && st.assets[k].id == id)
    ensures KeyedByPrimaryKey(st) && r.Some? ==> r.value.id == id
  {
    if id in st.assets then Some(st.assets[id]) else None
  }

  function FindVersion(st: Store, id: string): (r: Option<AssetVersion>)
    ensures r.Some? ==> r.value in st.versions.Values
    ensures KeyedByPrimaryKey(st) ==>
      (r.Some? <==> exists k :: k in st.versions && st.versions[k].id == id)
    ensures KeyedByPrimaryKey(st) && r.Some? ==> r.value.id == id
  {
    if id in st.versions then Some(st.versions[id]) else None
  }

  function FindToken(st: Store, token: string): (r: Option<AccessToken>)
    ensures r.Some? ==> r.value in st.tokens.Values
    ensures KeyedByPrimaryKey(st) ==>
      (r.Some? <==> exists k :: k in st.tokens && st.tokens[k].token == token)
    ensures KeyedByPrimaryKey(st) && r.Some? ==> r.value.token == token
  {
    if token in st.tokens then Some(st.tokens[token]) else None
  }

  /** The token string is the primary key: at most one row carries it. */
  lemma TokenRowUnique(st: Store, k1: string, k2: string)
    requires KeyedByPrimaryKey(st)
    requires k1 in st.tokens && k2 in st.tokens
    requires st.tokens[k1].token == st.tokens[k2].token
    ensures k1 == k2 && st.tokens[k1] == st.tokens[k2]
  {
  }
}
