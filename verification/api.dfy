/** The request handlers of main.py, each a pure function of the store.
    Handlers that write return the new store together with the response;
    read-only handlers return only the response. The SHA-256 digest and
    the HTTP-date formatter are passed in as functions, and the values
    uuid4 and token_urlsafe would draw are passed in as arguments. */
module Api {
  import opened Text
  import opened Models
  import opened CachePolicy

  // ---------------------------------------------------------------------
  // Responses
  // ---------------------------------------------------------------------

  datatype Body =
    | Empty
    | Content(bytes: Bytes)
    | Detail(message: string)
    | UploadReceipt(id: string, filename: string, etag: string, size: nat)
    | PublishReceipt(versionId: string, assetId: string, etag: string)
    | TokenGrant(token: string, expiresAt: Time)
    | InternalError

  /** A status, the headers the handler sets, the media type passed to
      the framework's Response (if any), and the body. */
  datatype Response = Response(
    status: nat,
    headers: map<string, string>,
    mediaType: Option<string>,
    body: Body)

  datatype Outcome = Outcome(store: Store, response: Response)

  const Json := "application/json"
  const OctetStream := "application/octet-stream"

  /** A handler's dict return value, serialised as JSON with status 200. */
  function Ok(body: Body): Response {
    Response(200, map[], Some(Json), body)
  }

  /** An HTTPException: its status and `{"detail": message}`. */
  function Fail(status: nat, message: string): Response {
    Response(status, map[], Some(Json), Detail(message))
  }

  /** An exception the handler does not catch (a rejected commit, a
      missing blob, an attribute read on None) ends the request with 500. */
  function ServerError(): Response {
    Response(500, map[], Some("text/plain"), InternalError)
  }

  const NotModified := Response(304, map[], None, Empty)

  // ---------------------------------------------------------------------
  // Upload
  // ---------------------------------------------------------------------

  /** The blob-store key of an upload: the new asset's id, an underscore,
      and the client's file name. */
  function StorageKey(id: string, filename: string): (k: string)
    ensures |k| == |id| + 1 + |filename|
  {
    id + "_" + filename
  }

  lemma KeyLayout(id: string, filename: string, i: nat)
    requires i < |id|
    ensures StorageKey(id, filename)[i] == id[i]
  {
  }

  lemma KeySeparator(id: string, filename: string)
    ensures StorageKey(id, filename)[|id|] == '_'
  {
  }

  /** With ids free of underscores (as UUID text is), the key determines
      both the id and the file name. */
  lemma StorageKeyInjective(id1: string, filename1: string, id2: string, filename2: string)
    requires '_' !in id1 && '_' !in id2
    requires StorageKey(id1, filename1) == StorageKey(id2, filename2)
    ensures id1 == id2 && filename1 == filename2
  {
    var k := StorageKey(id1, filename1);
    if |id1| < |id2| {
      KeyLayout(id2, filename2, |id1|);
      KeySeparator(id1, filename1);
      assert false;
    } else if |id2| < |id1| {
      KeyLayout(id1, filename1, |id2|);
      KeySeparator(id2, filename2);
      assert false;
    }
    assert id1 == k[..|id1|] == id2;
    assert filename1 == k[|id1| + 1..] == filename2;
  }

  /** POST /assets/upload. `contentType` is the file part's Content-Type
      header, None when the part has none; `id` is the value uuid4 gave,
      `now` the database clock at insert. The blob client refuses a missing
      content type before it writes anything, so that case is 500 with
      nothing changed. Otherwise the blob is written before the commit, so
      it stays written when the commit is rejected. */
  function UploadAsset(
    st: Store, filename: string, contentType: Option<string>, content: Bytes,
    id: string, now: Time, hash: Bytes -> HexDigest): (o: Outcome)
    ensures contentType.None? ==> o == Outcome(st, ServerError())
    ensures contentType.Some? ==> o.store.blobs == st.blobs[StorageKey(id, filename) := content]
    ensures o.store.versions == st.versions && o.store.tokens == st.tokens
    ensures Consistent(st) ==> Consistent(o.store)
    ensures o.response.status == 200 <==>
      contentType.Some? && id !in st.assets && !AssetKeyTaken(st, StorageKey(id, filename))
    ensures o.response.status != 200 ==>
      o.response == ServerError() && o.store.assets == st.assets
    ensures o.response.status == 200 ==>
      && contentType.Some?
      && o.store.assets.Keys == st.assets.Keys + {id}
      && (forall other :: other in st.assets ==> o.store.assets[other] == st.assets[other])
      && o.store.assets[id] == Asset(id, StorageKey(id, filename), filename, contentType.value,
                                     |content|, hash(content), false, now)
      && o.response == Ok(UploadReceipt(id, filename, hash(content), |content|))
  {
    match contentType
    case None => Outcome(st, ServerError())
    case Some(mimeType) =>
      var key := StorageKey(id, filename);
      var written := st.(blobs := st.blobs[key := content]);
      var asset := Asset(id, key, filename, mimeType, |content|, hash(content), false, now);
      match InsertAsset(written, asset)
      case Rejected(_) => Outcome(written, ServerError())
      case Committed(next) =>
        Outcome(next, Ok(UploadReceipt(id, filename, asset.etag, asset.sizeBytes)))
  }

  // ---------------------------------------------------------------------
  // Mutable download
  // ---------------------------------------------------------------------

  /** The inline Content-Disposition value: the file name between the
      quotes of `filename="…"`. It can be written as a header exactly when
      the file name can. */
  function ContentDisposition(filename: string): (d: string)
    ensures |d| == |filename| + 19
    ensures d[..18] == "inline; filename=\"" && d[18..|d| - 1] == filename && d[|d| - 1] == '"'
    ensures Latin1(d) <==> Latin1(filename)
  {
    var d := "inline; filename=\"" + filename + "\"";
    assert forall i :: 0 <= i < |filename| ==> d[18 + i] == filename[i];
    d
  }

  function MutableHeaders(a: Asset, httpDate: Time -> string): map<string, string> {
    map[
      "ETag" := a.etag,
      "Cache-Control" := MutableCacheControl,
      "Last-Modified" := httpDate(a.createdAt),
      "Content-Disposition" := ContentDisposition(a.filename)]
  }

  /** GET /assets/{id}/download. `ifNoneMatch` is the If-None-Match
      request header, None when absent. The framework encodes every header
      value as Latin-1 when it builds the response, so a file name outside
      Latin-1 makes the Content-Disposition header fail with 500; the
      other header values are ASCII. */
  function DownloadAsset(
    st: Store, assetId: string, ifNoneMatch: Option<string>,
    httpDate: Time -> string): (r: Response)
    ensures assetId !in st.assets ==> r == Fail(404, "Asset not found")
    ensures r.status == 404 <==> assetId !in st.assets
    ensures assetId in st.assets ==>
      (r.status == 304 <==> ifNoneMatch == Some(st.assets[assetId].etag))
    ensures (&& assetId in st.assets
             && ifNoneMatch != Some(st.assets[assetId].etag)
             && st.assets[assetId].objectStorageKey in st.blobs
             && Latin1(st.assets[assetId].filename)) ==> r.status == 200
    ensures r.status == 304 ==> r.body == Empty && r.headers == map[]
    ensures r.status == 500 <==>
      && assetId in st.assets
      && ifNoneMatch != Some(st.assets[assetId].etag)
      && (st.assets[assetId].objectStorageKey !in st.blobs || !Latin1(st.assets[assetId].filename))
    ensures r.status == 500 ==> r == ServerError()
    ensures r.status == 200 ==>
      && assetId in st.assets
      && var a := st.assets[assetId];
      && r.body == Content(st.blobs[a.objectStorageKey])
      && r.mediaType == Some(a.mimeType)
      && r.headers.Keys == {"ETag", "Cache-Control", "Last-Modified", "Content-Disposition"}
      && r.headers["ETag"] == a.etag
      && r.headers["Cache-Control"] == MutableCacheControl
      && r.headers["Last-Modified"] == httpDate(a.createdAt)
      && r.headers["Content-Disposition"] == "inline; filename=\"" + a.filename + "\""
      && Latin1(a.filename)
    ensures r.status in {200, 304, 404, 500}
  {
    match FindAsset(st, assetId)
    case None => Fail(404, "Asset not found")
    case Some(a) =>
      if ifNoneMatch == Some(a.etag) then NotModified
      else if a.objectStorageKey !in st.blobs then ServerError()
      else if !Latin1(ContentDisposition(a.filename)) then ServerError()
      else Response(200, MutableHeaders(a, httpDate), Some(a.mimeType),
                    Content(st.blobs[a.objectStorageKey]))
  }

  /** HEAD /assets/{id}/download: headers only, no conditional branch. */
  function HeadAsset(st: Store, assetId: string, httpDate: Time -> string): (r: Response)
    ensures assetId !in st.assets ==> r == Fail(404, "Asset not found")
    ensures assetId in st.assets ==>
      && var a := st.assets[assetId];
      && r.status == 200
      && r.body == Empty
      && r.mediaType == None
      && r.headers.Keys == {"ETag", "Cache-Control", "Last-Modified", "Content-Length", "Content-Type"}
      && r.headers["ETag"] == a.etag
      && r.headers["Cache-Control"] == MutableCacheControl
      && r.headers["Last-Modified"] == httpDate(a.createdAt)
      && AllDigits(r.headers["Content-Length"])
      && DecimalValue(r.headers["Content-Length"]) == a.sizeBytes
      && r.headers["Content-Type"] == a.mimeType
  {
    match FindAsset(st, assetId)
    case None => Fail(404, "Asset not found")
    case Some(a) =>
      DecimalRoundTrip(a.sizeBytes);
      Response(200,
        map[
          "ETag" := a.etag,
          "Cache-Control" := MutableCacheControl,
          "Last-Modified" := httpDate(a.createdAt),
          "Content-Length" := Decimal(a.sizeBytes),
          "Content-Type" := a.mimeType],
        None, Empty)
  }

  // ---------------------------------------------------------------------
  // Publish
  // ---------------------------------------------------------------------

  /** POST /assets/{id}/publish. `versionId` is the value uuid4 gave. */
  function PublishAsset(st: Store, assetId: string, versionId: string, now: Time): (o: Outcome)
    ensures assetId !in st.assets ==>
      o.store == st && o.response == Fail(404, "Asset not found")
    ensures o.store.assets == st.assets && o.store.tokens == st.tokens && o.store.blobs == st.blobs
    ensures Consistent(st) ==> Consistent(o.store)
    ensures assetId in st.assets ==>
      (o.response.status == 200 <==>
         versionId !in st.versions && !VersionKeyTaken(st, st.assets[assetId].objectStorageKey))
    ensures assetId in st.assets && o.response.status != 200 ==>
      o.store == st && o.response == ServerError()
    ensures o.response.status == 200 ==>
      && assetId in st.assets
      && var a := st.assets[assetId];
      && o.store.versions.Keys == st.versions.Keys + {versionId}
      && (forall v :: v in st.versions ==> o.store.versions[v] == st.versions[v])
      && o.store.versions[versionId] == AssetVersion(versionId, assetId, a.objectStorageKey, a.etag, now)
      && o.response == Ok(PublishReceipt(versionId, assetId, a.etag))
  {
    match FindAsset(st, assetId)
    case None => Outcome(st, Fail(404, "Asset not found"))
    case Some(a) =>
      var version := AssetVersion(versionId, assetId, a.objectStorageKey, a.etag, now);
      match InsertVersion(st, version)
      case Rejected(_) => Outcome(st, ServerError())
      case Committed(next) =>
        Outcome(next, Ok(PublishReceipt(versionId, assetId, version.etag)))
  }

  // ---------------------------------------------------------------------
  // Immutable public download
  // ---------------------------------------------------------------------

  function ImmutableHeaders(v: AssetVersion, httpDate: Time -> string): map<string, string> {
    map[
      "ETag" := v.etag,
      "Cache-Control" := ImmutableCacheControl,
      "Last-Modified" := httpDate(v.createdAt)]
  }

  /** GET /assets/public/{version_id}; there is no conditional branch. */
  function GetPublicVersion(st: Store, versionId: string, httpDate: Time -> string): (r: Response)
    ensures versionId !in st.versions ==> r == Fail(404, "Version not found")
    ensures r.status == 404 <==> versionId !in st.versions
    ensures versionId in st.versions && st.versions[versionId].objectStorageKey in st.blobs ==>
      r.status == 200
    ensures r.status == 500 <==>
      versionId in st.versions && st.versions[versionId].objectStorageKey !in st.blobs
    ensures r.status == 500 ==> r == ServerError()
    ensures r.status != 304
    ensures r.status == 200 ==>
      && versionId in st.versions
      && var v := st.versions[versionId];
      && r.body == Content(st.blobs[v.objectStorageKey])
      && r.mediaType == Some(OctetStream)
      && r.headers.Keys == {"ETag", "Cache-Control", "Last-Modified"}
      && r.headers["ETag"] == v.etag
      && r.headers["Cache-Control"] == ImmutableCacheControl
      && r.headers["Last-Modified"] == httpDate(v.createdAt)
  {
    match FindVersion(st, versionId)
    case None => Fail(404, "Version not found")
    case Some(v) =>
      if v.objectStorageKey !in st.blobs then ServerError()
      else Response(200, ImmutableHeaders(v, httpDate), Some(OctetStream),
                    Content(st.blobs[v.objectStorageKey]))
  }

  /** HEAD /assets/public/{version_id}. */
  function HeadPublicVersion(st: Store, versionId: string, httpDate: Time -> string): (r: Response)
    ensures versionId !in st.versions ==> r == Fail(404, "Version not found")
    ensures versionId in st.versions ==>
      && var v := st.versions[versionId];
      && r.status == 200
      && r.body == Empty
      && r.mediaType == None
      && r.headers.Keys == {"ETag", "Cache-Control", "Last-Modified"}
      && r.headers["ETag"] == v.etag
      && r.headers["Cache-Control"] == ImmutableCacheControl
      && r.headers["Last-Modified"] == httpDate(v.createdAt)
  {
    match FindVersion(st, versionId)
    case None => Fail(404, "Version not found")
    case Some(v) => Response(200, ImmutableHeaders(v, httpDate), None, Empty)
  }

  // ---------------------------------------------------------------------
  // Access tokens
  // ---------------------------------------------------------------------

  /** Five minutes, in microseconds. */
  const TokenLifetime: nat := 5 * 60 * 1000000

  /** POST /assets/{id}/generate-token. `token` is the value
      token_urlsafe gave, `now` the clock. */
  function GenerateAccessToken(st: Store, assetId: string, token: string, now: Time): (o: Outcome)
    ensures assetId !in st.assets ==>
      o.store == st && o.response == Fail(404, "Asset not found")
    ensures o.store.assets == st.assets && o.store.versions == st.versions && o.store.blobs == st.blobs
    ensures Consistent(st) ==> Consistent(o.store)
    ensures assetId in st.assets ==> (o.response.status == 200 <==> token !in st.tokens)
    ensures assetId in st.assets && token in st.tokens ==>
      o.store == st && o.response == ServerError()
    ensures o.response.status == 200 ==>
      && o.store.tokens.Keys == st.tokens.Keys + {token}
      && (forall k :: k in st.tokens ==> o.store.tokens[k] == st.tokens[k])
      && o.store.tokens[token] == AccessToken(token, assetId, now + TokenLifetime, now)
      && o.response == Ok(TokenGrant(token, now + TokenLifetime))
  {
    match FindAsset(st, assetId)
    case None => Outcome(st, Fail(404, "Asset not found"))
    case Some(a) =>
      var record := AccessToken(token, assetId, now + TokenLifetime, now);
      match InsertToken(st, record)
      case Rejected(_) => Outcome(st, ServerError())
      case Committed(next) => Outcome(next, Ok(TokenGrant(token, record.expiresAt)))
  }

  function PrivateHeaders(a: Asset, httpDate: Time -> string): map<string, string> {
    map[
      "Cache-Control" := PrivateCacheControl,
      "ETag" := a.etag,
      "Last-Modified" := httpDate(a.createdAt)]
  }

  /** GET /assets/private/{token} at clock reading `now`. */
  function GetPrivateAsset(st: Store, token: string, now: Time, httpDate: Time -> string): (r: Response)
    ensures token !in st.tokens ==> r == Fail(401, "Invalid token")
    ensures r.status == 401 <==> token !in st.tokens
    ensures token in st.tokens ==>
      (r.status == 403 <==> st.tokens[token].expiresAt < now)
    ensures r.status == 403 ==> r == Fail(403, "Token expired")
    ensures r.status == 200 <==>
      && token in st.tokens
      && now <= st.tokens[token].expiresAt
      && st.tokens[token].assetId in st.assets
      && st.assets[st.tokens[token].assetId].objectStorageKey in st.blobs
    ensures r.status == 500 ==> r == ServerError()
    ensures r.status == 200 ==>
      && token in st.tokens
      && now <= st.tokens[token].expiresAt
      && st.tokens[token].assetId in st.assets
      && var a := st.assets[st.tokens[token].assetId];
      && a.objectStorageKey in st.blobs
      && r.body == Content(st.blobs[a.objectStorageKey])
      && r.mediaType == Some(a.mimeType)
      && r.headers.Keys == {"Cache-Control", "ETag", "Last-Modified"}
      && r.headers["Cache-Control"] == PrivateCacheControl
      && r.headers["ETag"] == a.etag
      && r.headers["Last-Modified"] == httpDate(a.createdAt)
    ensures r.status in {200, 401, 403, 500}
  {
    match FindToken(st, token)
    case None => Fail(401, "Invalid token")
    case Some(t) =>
      // Refused only once the expiry lies strictly before now.
      if t.expiresAt < now then Fail(403, "Token expired")
      else
        match FindAsset(st, t.assetId)
        case None => ServerError()
        case Some(a) =>
          if a.objectStorageKey !in st.blobs then ServerError()
          else Response(200, PrivateHeaders(a, httpDate), Some(a.mimeType),
                        Content(st.blobs[a.objectStorageKey]))
  }
}
