/** Properties that relate several requests: what an upload makes
    downloadable, what a conditional GET depends on, how HEAD agrees with
    GET, why an asset can be published only once, how long a token works,
    and why a published version's response never changes. */
module Properties {
  import opened Text
  import opened Models
  import opened Api
  import opened Service

  // ---------------------------------------------------------------------
  // Upload, then download
  // ---------------------------------------------------------------------

  /** After a successful upload, a plain GET of the returned id serves the
      uploaded bytes under the returned etag, as long as the file name can
      be written in the Latin-1 Content-Disposition header; otherwise the
      GET fails with 500. */
  lemma UploadThenDownload(
    st: Store, filename: string, contentType: Option<string>, content: Bytes,
    id: string, now: Time, hash: Bytes -> HexDigest, httpDate: Time -> string)
    requires UploadAsset(st, filename, contentType, content, id, now, hash).response.status == 200
    ensures var o := UploadAsset(st, filename, contentType, content, id, now, hash);
      var r := DownloadAsset(o.store, id, None, httpDate);
      && o.response.body.UploadReceipt?
      && (r.status == 200 <==> Latin1(filename))
      && (!Latin1(filename) ==> r == ServerError())
      && (Latin1(filename) ==>
            && r.body == Content(content)
            && r.headers["ETag"] == o.response.body.etag == hash(content)
            && r.mediaType == contentType
            && r.headers["Last-Modified"] == httpDate(now))
  {
  }

  /** Sending back the etag an upload returned gives 304. */
  lemma UploadThenConditionalGet(
    st: Store, filename: string, contentType: Option<string>, content: Bytes,
    id: string, now: Time, hash: Bytes -> HexDigest, httpDate: Time -> string)
    requires UploadAsset(st, filename, contentType, content, id, now, hash).response.status == 200
    ensures var o := UploadAsset(st, filename, contentType, content, id, now, hash);
      DownloadAsset(o.store, id, Some(o.response.body.etag), httpDate) == NotModified
  {
  }

  // ---------------------------------------------------------------------
  // Conditional GET
  // ---------------------------------------------------------------------

  /** The 304 branch is decided before the blob store is read: its
      response is the same whatever the blobs are. */
  lemma NotModifiedIgnoresBlobs(
    st: Store, blobs: map<string, Bytes>, assetId: string, httpDate: Time -> string)
    requires assetId in st.assets
    ensures var tag := Some(st.assets[assetId].etag);
      && DownloadAsset(st, assetId, tag, httpDate) == NotModified
      && DownloadAsset(st.(blobs := blobs), assetId, tag, httpDate) == NotModified
  {
  }

  /** Without an If-None-Match header there is no 304. */
  lemma NoHeaderNo304(st: Store, assetId: string, httpDate: Time -> string)
    ensures DownloadAsset(st, assetId, None, httpDate).status != 304
  {
  }

  /** Reads change nothing, so the same read served twice in a row gives
      the same response. */
  lemma ReadRepeatable(st: Store, e1: Event, e2: Event, env: Env)
    requires e1.request == e2.request
    requires e1.request.Download? || e1.request.HeadDownload?
          || e1.request.GetPublic? || e1.request.HeadPublic?
    ensures Step(st, e1, env).store == st
    ensures Step(Step(st, e1, env).store, e2, env).response == Step(st, e1, env).response
  {
  }

  // ---------------------------------------------------------------------
  // HEAD agrees with GET
  // ---------------------------------------------------------------------

  /** HEAD reports the validators and caching policy of the body GET would
      send, its type, and (in a valid store) its length. HEAD succeeds even
      where GET fails because the file name is not Latin-1: HEAD sends no
      Content-Disposition. */
  lemma HeadMatchesGet(st: Store, assetId: string, env: Env)
    requires Valid(st, env.hash)
    requires assetId in st.assets
    ensures var g := DownloadAsset(st, assetId, None, env.httpDate);
      var h := HeadAsset(st, assetId, env.httpDate);
      && h.status == 200
      && (g.status == 200 <==> Latin1(st.assets[assetId].filename))
    ensures var g := DownloadAsset(st, assetId, None, env.httpDate);
      var h := HeadAsset(st, assetId, env.httpDate);
      g.status == 200 ==>
        (&& h.headers["ETag"] == g.headers["ETag"]
         && h.headers["Cache-Control"] == g.headers["Cache-Control"]
         && h.headers["Last-Modified"] == g.headers["Last-Modified"]
         && Some(h.headers["Content-Type"]) == g.mediaType
         && DecimalValue(h.headers["Content-Length"]) == |g.body.bytes|)
  {
    assert AssetValid(assetId, st.assets[assetId], st.blobs, env.hash);
  }

  /** In a valid store HEAD on a version sends the ETag, Cache-Control and
      Last-Modified GET on it sends, without the body; unlike GET it passes
      no media type, so it reports no Content-Type. */
  lemma HeadPublicMatchesGetPublic(st: Store, versionId: string, env: Env)
    requires Valid(st, env.hash)
    requires versionId in st.versions
    ensures var g := GetPublicVersion(st, versionId, env.httpDate);
      var h := HeadPublicVersion(st, versionId, env.httpDate);
      && g.status == 200 && h.status == 200
      && h.headers == g.headers
      && h.body == Empty
      && g.mediaType == Some(OctetStream) && h.mediaType == None
  {
    var v := st.versions[versionId];
    assert Mirrors(st.assets, v);
    assert AssetValid(v.assetId, st.assets[v.assetId], st.blobs, env.hash);
  }

  /** HEAD never reads the blob store, on either path. */
  lemma HeadIgnoresBlobs(st: Store, blobs: map<string, Bytes>, id: string, httpDate: Time -> string)
    ensures HeadAsset(st.(blobs := blobs), id, httpDate) == HeadAsset(st, id, httpDate)
    ensures HeadPublicVersion(st.(blobs := blobs), id, httpDate) == HeadPublicVersion(st, id, httpDate)
  {
  }

  /** In a valid store the ETag of every 200 body is the hash of that
      body: the etag is a strong validator of what is served. */
  lemma ServedETagIsContentHash(st: Store, id: string, token: string, now: Time, env: Env)
    requires Valid(st, env.hash)
    ensures var r := DownloadAsset(st, id, None, env.httpDate);
      r.status == 200 ==> env.hash(r.body.bytes) == r.headers["ETag"]
    ensures var r := GetPublicVersion(st, id, env.httpDate);
      r.status == 200 ==> env.hash(r.body.bytes) == r.headers["ETag"]
    ensures var r := GetPrivateAsset(st, token, now, env.httpDate);
      r.status == 200 ==> env.hash(r.body.bytes) == r.headers["ETag"]
  {
    if id in st.assets {
      assert AssetValid(id, st.assets[id], st.blobs, env.hash);
    }
    if id in st.versions {
      var v := st.versions[id];
      assert Mirrors(st.assets, v);
      assert AssetValid(v.assetId, st.assets[v.assetId], st.blobs, env.hash);
    }
    if token in st.tokens && st.tokens[token].assetId in st.assets {
      var a := st.tokens[token].assetId;
      assert AssetValid(a, st.assets[a], st.blobs, env.hash);
    }
  }

  // ---------------------------------------------------------------------
  // Publish
  // ---------------------------------------------------------------------

  /** Versions copy their asset's storage key, and version keys are
      unique, so no asset has two versions. */
  lemma AtMostOneVersionPerAsset(st: Store, v1: string, v2: string, hash: Bytes -> HexDigest)
    requires Valid(st, hash)
    requires v1 in st.versions && v2 in st.versions
    requires st.versions[v1].assetId == st.versions[v2].assetId
    ensures v1 == v2
  {
    assert Mirrors(st.assets, st.versions[v1]);
    assert Mirrors(st.assets, st.versions[v2]);
  }

  predicate HasVersion(st: Store, assetId: string) {
    exists v :: v in st.versions && st.versions[v].assetId == assetId
  }

  /** In a valid store, publishing an existing asset under an unused
      version id succeeds exactly when the asset has no version yet. */
  lemma PublishSucceedsIff(st: Store, assetId: string, versionId: string, now: Time, hash: Bytes -> HexDigest)
    requires Valid(st, hash)
    requires assetId in st.assets && versionId !in st.versions
    ensures PublishAsset(st, assetId, versionId, now).response.status == 200 <==> !HasVersion(st, assetId)
  {
    var key := st.assets[assetId].objectStorageKey;
    if HasVersion(st, assetId) {
      var v :| v in st.versions && st.versions[v].assetId == assetId;
      assert Mirrors(st.assets, st.versions[v]);
      assert VersionKeyTaken(st, key);
    } else if VersionKeyTaken(st, key) {
      assert false;
    }
  }

  /** Once an asset is published, publishing it again fails with 500 and
      changes nothing, whatever version id is drawn. */
  lemma SecondPublishRejected(
    st: Store, assetId: string, v1: string, v2: string, t1: Time, t2: Time)
    requires PublishAsset(st, assetId, v1, t1).response.status == 200
    ensures var st1 := PublishAsset(st, assetId, v1, t1).store;
      PublishAsset(st1, assetId, v2, t2) == Outcome(st1, ServerError())
  {
    var st1 := PublishAsset(st, assetId, v1, t1).store;
    assert st1.versions[v1].objectStorageKey == st1.assets[assetId].objectStorageKey;
    assert VersionKeyTaken(st1, st1.assets[assetId].objectStorageKey);
  }

  /** A published version serves its asset's bytes, with the asset's etag
      and the publish time as Last-Modified. */
  lemma PublishThenGetPublic(st: Store, assetId: string, versionId: string, now: Time, env: Env)
    requires Valid(st, env.hash)
    requires PublishAsset(st, assetId, versionId, now).response.status == 200
    ensures var a := st.assets[assetId];
      var r := GetPublicVersion(PublishAsset(st, assetId, versionId, now).store, versionId, env.httpDate);
      && r.status == 200
      && r.body == Content(st.blobs[a.objectStorageKey])
      && r.headers["ETag"] == a.etag
      && r.headers["Last-Modified"] == env.httpDate(now)
  {
    assert AssetValid(assetId, st.assets[assetId], st.blobs, env.hash);
  }

  // ---------------------------------------------------------------------
  // Tokens
  // ---------------------------------------------------------------------

  /** In a valid store a live token always reaches its asset: the foreign
      key makes the asset lookup succeed and the blob is there. */
  lemma LiveTokenServes(st: Store, token: string, now: Time, env: Env)
    requires Valid(st, env.hash)
    requires token in st.tokens && now <= st.tokens[token].expiresAt
    ensures var a := st.assets[st.tokens[token].assetId];
      GetPrivateAsset(st, token, now, env.httpDate).status == 200
      && GetPrivateAsset(st, token, now, env.httpDate).body == Content(st.blobs[a.objectStorageKey])
  {
    var id := st.tokens[token].assetId;
    assert AssetValid(id, st.assets[id], st.blobs, env.hash);
  }

  /** A token issued at `issued` opens its asset exactly while
      now <= issued + 5 minutes, the end instant included, and is refused
      with 403 afterwards. */
  lemma TokenWindow(st: Store, assetId: string, token: string, issued: Time, now: Time, env: Env)
    requires Valid(st, env.hash)
    requires GenerateAccessToken(st, assetId, token, issued).response.status == 200
    ensures var r := GetPrivateAsset(GenerateAccessToken(st, assetId, token, issued).store, token, now, env.httpDate);
      && (r.status == 200 <==> now <= issued + TokenLifetime)
      && (r.status == 403 <==> issued + TokenLifetime < now)
  {
    var st1 := GenerateAccessToken(st, assetId, token, issued).store;
    IssuePreservesValid(st, assetId, token, issued, env.hash);
    if now <= issued + TokenLifetime {
      LiveTokenServes(st1, token, now, env);
    }
  }

  /** The boundary instants: accepted at the expiry instant, refused one
      microsecond later. */
  lemma TokenBoundary(st: Store, assetId: string, token: string, issued: Time, env: Env)
    requires Valid(st, env.hash)
    requires GenerateAccessToken(st, assetId, token, issued).response.status == 200
    ensures var st1 := GenerateAccessToken(st, assetId, token, issued).store;
      && GetPrivateAsset(st1, token, issued + TokenLifetime, env.httpDate).status == 200
      && GetPrivateAsset(st1, token, issued + TokenLifetime + 1, env.httpDate) == Fail(403, "Token expired")
  {
    TokenWindow(st, assetId, token, issued, issued + TokenLifetime, env);
    TokenWindow(st, assetId, token, issued, issued + TokenLifetime + 1, env);
  }

  // ---------------------------------------------------------------------
  // Immutability of what is served
  // ---------------------------------------------------------------------

  /** One step with a fresh upload id leaves the public response of every
      existing version as it was. */
  lemma StepKeepsPublicResponse(st: Store, e: Event, env: Env, versionId: string)
    requires Valid(st, env.hash)
    requires FreshFor(st, e)
    requires versionId in st.versions
    ensures var next := Step(st, e, env).store;
      && versionId in next.versions
      && GetPublicVersion(next, versionId, env.httpDate) == GetPublicVersion(st, versionId, env.httpDate)
  {
    var v := st.versions[versionId];
    assert Mirrors(st.assets, v);
    StepKeepsRows(st, e, env);
    StepKeepsStoredContent(st, e, env, v.assetId);
  }

  /** Along any run with fresh identifiers, a published version keeps
      serving the same bytes and headers: the promise that
      `max-age=31536000, immutable` makes to caches is kept. */
  lemma {:induction false} RunKeepsPublicResponse(st: Store, events: seq<Event>, env: Env, versionId: string)
    requires Valid(st, env.hash)
    requires FreshRun(st, events, env)
    requires versionId in st.versions
    ensures versionId in Run(st, events, env).versions
    ensures GetPublicVersion(Run(st, events, env), versionId, env.httpDate)
         == GetPublicVersion(st, versionId, env.httpDate)
    decreases |events|
  {
    if |events| > 0 {
      var next := Step(st, events[0], env).store;
      StepKeepsPublicResponse(st, events[0], env, versionId);
      StepPreservesValid(st, events[0], env);
      RunKeepsPublicResponse(next, events[1..], env, versionId);
    }
  }
}
