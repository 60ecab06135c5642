# Content delivery API — a Dafny model

This project models the request-handling core of a small content delivery
service built on FastAPI, SQLAlchemy and S3. The service:

- stores uploaded files ("assets") as blobs under a key derived from a fresh UUID and the file name;
- serves an asset through a mutable, conditionally cacheable download endpoint;
- publishes immutable "versions" of an asset;
- issues five-minute access tokens, and a private endpoint that serves an asset only to a token that has not yet expired.

The model is a state machine. The state (`Models.Store`) has four maps:

- the `assets` table;
- the `asset_versions` table;
- the `access_tokens` table;
- the blob store.

Each endpoint of `main.py` is a pure function in module `Api`. It takes the
state and the request's inputs. It returns a response: status, the headers
the handler sets, media type and body. A handler that writes also returns
the new state.

The database constraints of `app/models.py` are enforced at commit
(`Models.InsertAsset`, `InsertVersion`, `InsertToken`):

- primary keys;
- unique storage keys;
- non-null foreign keys.

A violated constraint rolls the transaction back, and the handler ends with 500.

Some things the model does not look inside; they enter as parameters:

- SHA-256 and the HTTP-date formatter (`Service.Env`);
- the values `uuid.uuid4` and `secrets.token_urlsafe` produce (`Service.Entropy`);
- the clock, as `now`, in microseconds.

Modules:

- `Text`: bytes, decimal numerals (`str(int)`), UUID text and hex digests.
- `CacheControl`: the Cache-Control directives of section 5.2.2 of RFC 9111 and the `immutable` directive of RFC 8246. It covers their text form, a reader that gives the directive list back (`ParseRender`), and what a directive list allows a shared or private cache to do.
- `CachePolicy`: the three header values the service sends, read back as directive lists, with their lifetimes and storage rules.
- `Models`: records, constraints, inserts and lookups.
- `Api`: the eight handlers.
- `Service`: requests as events, the transition function `Step`, and the invariant `Valid`. `Valid` holds in every state a run reaches, given fresh UUIDs.
- `Properties`: the cross-request facts. These are:
  - upload/download round trip;
  - conditional GET;
  - HEAD agreeing with GET;
  - at most one version per asset;
  - the token window;
  - published versions never changing.

### Behaviour worth knowing

- **Second publish.** Publish copies the asset's storage key (main.py:151) into a column declared unique (app/models.py:44), so each asset can be published once; a second publish fails at commit with 500. The model shows the following:
  - a second publish of the same asset is rejected at commit: 500, nothing changes (`Properties.SecondPublishRejected`);
  - an asset has at most one version (`Properties.AtMostOneVersionPerAsset`);
  - publish succeeds exactly when the asset has no version yet (`Properties.PublishSucceedsIff`).
- **Token expiry boundary.** The check is `expires_at < now` (main.py:262). So a token is still accepted at exactly its expiry instant and refused from the next instant on (`Properties.TokenBoundary`).
- **ETag comparison.** The ETag is the bare hex digest, not a quoted entity-tag. The conditional GET compares `If-None-Match` to it by exact string equality. Section 13.1.2 of RFC 9110 would use weak comparison over a list, but the code does neither (`Api.DownloadAsset`).
- **Mutable content.** No endpoint updates an asset row. An upload writes its blob before the commit (main.py:57-62 runs before main.py:75), so an upload whose key collided with an existing one would overwrite that asset's blob and then fail with 500; a fresh UUID is what keeps this from happening (`Service.FreshFor`). With fresh UUIDs, the content behind every asset and every version is fixed once written (`Service.StepKeepsRows`, `Service.StepKeepsStoredContent`, `Properties.RunKeepsPublicResponse`).
- **File names outside Latin-1.** The download puts the file name into `Content-Disposition` (main.py:108). Starlette encodes every header value as Latin-1 when it builds the response, and the multipart parser decodes file names as UTF-8, so an upload named `€.txt` or `отчёт.pdf` is stored but its GET ends with 500 (`Api.DownloadAsset`, `Properties.UploadThenDownload`). HEAD sends no Content-Disposition and still answers 200 (`Properties.HeadMatchesGet`).
- **A file part without a content type.** `UploadFile.content_type` is None when the part has no Content-Type header. The blob client refuses `ContentType=None` before writing anything (main.py:57-62), so the upload ends with 500 and nothing changes; `mime_type` is NOT NULL anyway (app/models.py:25) (`Api.UploadAsset`).
- **HEAD on a version.** `head_public_version` passes no media type (main.py:218), while GET passes `application/octet-stream` (main.py:192). So HEAD reports neither GET's Content-Type nor its length: the framework's Content-Length on HEAD is that of the empty body (`Properties.HeadPublicMatchesGetPublic`).
- **Private tokens under PostgreSQL.** app/models.py imports the PostgreSQL dialect. Under PostgreSQL `expires_at` loads as an aware datetime, and comparing it with the naive `datetime.utcnow()` at main.py:262 raises TypeError, so every known token would end with 500. The model compares the two as instants on one UTC clock (see `Api.GetPrivateAsset` under "Left out").

## Model

| member | source | states |
|---|---|---|
| Text.Decimal | main.py:132 | the numeral has at least one digit, only digits, and no leading zero unless it is 0 |
| Text.DecimalRoundTrip | main.py:132 | reading back the numeral `str(n)` writes gives `n` |
| Text.DecimalInjective | main.py:132 | different sizes never get the same Content-Length text |
| Text.UuidHasNoUnderscore | main.py:54-55 | the canonical text of a UUID contains no `_`, so the separator in a storage key is unambiguous |
| CacheControl.DirectiveText | main.py:106 | every directive is written as non-empty text free of commas and whitespace |
| CacheControl.MaxAgeOf | main.py:106 | finds a max-age value exactly when the list holds a max-age directive, and the value found is that of the first max-age in the list |
| CacheControl.SMaxAgeOf | main.py:106 | finds an s-maxage value exactly when the list holds an s-maxage directive, and the value found is that of the first s-maxage in the list |
| CacheControl.ParseDirectiveText | main.py:106 | each directive's text reads back as that directive |
| CacheControl.SplitRender | main.py:106 | splitting a rendered header value at its commas gives one element per directive |
| CacheControl.ParseRender | main.py:106 | any non-empty directive list, written as a header value and read back (after any leading whitespace), gives the same list |
| CachePolicy.RenderMutable | main.py:106 | the mutable header text is exactly the rendering of `public, s-maxage=3600, max-age=60` |
| CachePolicy.RenderImmutable | main.py:184 | the immutable header text is exactly the rendering of `public, max-age=31536000, immutable` |
| CachePolicy.RenderPrivate | main.py:273 | the private header text is exactly the rendering of `private, no-store, no-cache, must-revalidate` |
| CachePolicy.MutableParses | main.py:130 | the mutable header text reads back as `public`, `s-maxage=3600`, `max-age=60` |
| CachePolicy.ImmutableParses | main.py:212 | the immutable header text reads back as `public`, `max-age=31536000`, `immutable` |
| CachePolicy.PrivateParses | main.py:273 | the private header text reads back as `private`, `no-store`, `no-cache`, `must-revalidate` |
| CachePolicy.ReadsBack | main.py:130 | a header text that renders a directive list parses back to that list |
| CachePolicy.MutableCacheControlMeaning | main.py:106 | the mutable header lets shared caches keep a response for an hour and private caches for a minute, lets both store it, and neither forces nor forbids revalidation |
| CachePolicy.ImmutableCacheControlMeaning | main.py:184 | the version header lets every cache keep a response for 365 days without revalidating while fresh |
| CachePolicy.PrivateCacheControlMeaning | main.py:273 | the private header forbids every cache to store the response, gives it no freshness lifetime, and demands validation on every use |
| Models.EmptyStoreConsistent | app/models.py:19-61 | a freshly created schema satisfies all its constraints |
| Models.InsertAsset | app/models.py:22-23 | an asset insert is rejected exactly when its id or storage key is taken; otherwise it adds just that row and keeps the schema consistent |
| Models.InsertVersion | app/models.py:42-44 | a version insert is rejected exactly when its id or storage key is taken or its asset is missing; otherwise it adds just that row and keeps the schema consistent |
| Models.InsertToken | app/models.py:58-59 | a token insert is rejected exactly when the token string is taken or its asset is missing; otherwise it adds just that row and keeps the schema consistent |
| Models.FindAsset | main.py:92 | `filter(id == k).first()` finds a row exactly when some row has id `k`, and the row found has that id |
| Models.FindVersion | main.py:172-174 | finds a version exactly when some row has that id, and the row found has it |
| Models.FindToken | main.py:255-257 | finds a token row exactly when some row carries that token string, and the row found carries it |
| Models.TokenRowUnique | app/models.py:58 | with the token as primary key, at most one row carries a given token |
| Api.StorageKey | main.py:55 | the key is as long as the id, one separator and the file name together; `Api.StorageKeyInjective` shows it loses nothing |
| Api.StorageKeyInjective | main.py:55 | for ids without `_`, equal keys mean equal ids and equal file names |
| Api.UploadAsset | main.py:48-83 | a part without a content type gives 500 and changes nothing. Otherwise the blob is written whatever happens. The upload succeeds exactly when the part has a content type and the id and key are unused; then the new row has etag H(content), the content's size, the declared type, the derived key and is_private false, and the receipt echoes them. Otherwise the result is 500 with the tables unchanged |
| Api.ContentDisposition | main.py:108 | the header value is `inline; filename="…"` with the file name between the quotes, and it is Latin-1 exactly when the file name is |
| Api.DownloadAsset | main.py:89-115 | the result is 404 exactly for an unknown id, and 304 with no body or headers exactly when If-None-Match equals the etag. A missing blob or a file name outside Latin-1 gives 500. Otherwise (known id, no match, blob present, Latin-1 file name) the result is 200 with the blob, the mime type, the etag, the mutable Cache-Control, Last-Modified from created_at, and an inline Content-Disposition |
| Api.HeadAsset | main.py:121-136 | the result is 404 for an unknown id, otherwise 200 with no body and the etag, the mutable Cache-Control, Last-Modified, a Content-Length that reads back as the size, and the mime type |
| Api.PublishAsset | main.py:142-163 | the result is 404 for an unknown asset. Otherwise publish succeeds exactly when the version id and the asset's key are free among versions; it then adds one version copying the asset's key and etag, stamped now. A rejected commit gives 500 with nothing changed |
| Api.GetPublicVersion | main.py:169-194 | the result is 404 exactly for an unknown version, 500 (the plain server error, without the immutable headers) exactly when its blob is missing, and 200 whenever the version exists and its blob is present, with the blob, octet-stream, the version's etag, the immutable Cache-Control and Last-Modified. It is never 304 |
| Api.HeadPublicVersion | main.py:200-218 | the result is 404 for an unknown version, otherwise 200 with no body and the version's etag, the immutable Cache-Control and Last-Modified |
| Api.GenerateAccessToken | main.py:224-246 | the result is 404 for an unknown asset. Otherwise a new token string is stored with expiry now + 5 minutes and returned with that expiry. A taken token string gives 500 with nothing changed |
| Api.GetPrivateAsset | main.py:252-284 | the result is 401 exactly for an unknown token, and 403 exactly when the expiry is strictly before now. It is 200 exactly when the token is known and unexpired and its asset and blob exist; a 200 carries the asset's blob, mime type, etag and Last-Modified, with the no-store Cache-Control. Any other case is 500 |
| Service.Step | main.py:48-284 | the GET and HEAD endpoints never change the state |
| Service.EmptyStoreValid | app/models.py:19-61 | the empty store satisfies the invariant |
| Service.FreshKeyUnused | main.py:54-55 | with a fresh UUID as id, the derived storage key is unused by every asset of a valid store |
| Service.UploadPreservesValid | main.py:51-76 | an upload with a fresh UUID succeeds exactly when the part has a content type, and keeps the store valid either way: keys unique, the blob matching etag and size, and the asset public |
| Service.PublishPreservesValid | main.py:145-157 | publish keeps the store valid; every version still mirrors its asset's key and etag |
| Service.IssuePreservesValid | main.py:227-241 | issuing a token keeps the store valid |
| Service.StepPreservesValid | main.py:48-284 | every request with a fresh upload id keeps the invariant |
| Service.RunPreservesValid | main.py:48-284 | every state a run with fresh ids reaches is valid |
| Service.StepKeepsRows | main.py:149-157 | no request updates or deletes an asset, version or token row |
| Service.StepKeepsStoredContent | main.py:57-62 | with a fresh upload id, no request rewrites the blob under an existing asset's key |
| Properties.UploadThenDownload | main.py:101-115 | after a successful upload, a plain GET gives 200 exactly when the file name is Latin-1, and 500 otherwise; a 200 carries the uploaded bytes, the receipt's etag (H(content)), the declared type and Last-Modified of the upload time |
| Properties.UploadThenConditionalGet | main.py:97-99 | sending back the etag from the upload receipt as If-None-Match gives 304 |
| Properties.NotModifiedIgnoresBlobs | main.py:97-99 | the 304 response does not depend on the blob store |
| Properties.NoHeaderNo304 | main.py:97-99 | without If-None-Match the download is never 304 |
| Properties.ReadRepeatable | main.py:89-218 | a GET or HEAD leaves the state as it was, so repeating it gives the same response |
| Properties.HeadMatchesGet | main.py:121-136 | in a valid store HEAD on a known asset gives 200, and GET gives 200 exactly when the file name is Latin-1; when both do, they agree on ETag, Cache-Control and Last-Modified, HEAD's Content-Type is the media type GET passes to the framework (before any charset it appends), and HEAD's Content-Length is the length of GET's body |
| Properties.HeadPublicMatchesGetPublic | main.py:200-218 | in a valid store HEAD and GET on a version both give 200 with the same ETag, Cache-Control and Last-Modified; HEAD has no body and, unlike GET's octet-stream, no media type |
| Properties.HeadIgnoresBlobs | main.py:200-218 | neither HEAD endpoint reads the blob store |
| Properties.ServedETagIsContentHash | main.py:101-109 | in a valid store every 200 body from the mutable, public and private GETs hashes to the ETag sent with it |
| Properties.AtMostOneVersionPerAsset | app/models.py:44 | in a valid store two versions of the same asset are the same version |
| Properties.PublishSucceedsIff | main.py:149-156 | in a valid store, publishing an asset under an unused version id succeeds exactly when the asset has no version yet |
| Properties.SecondPublishRejected | main.py:149-156 | right after a successful publish, publishing the same asset again gives 500 and changes nothing |
| Properties.PublishThenGetPublic | main.py:179-194 | a just-published version serves its asset's bytes and etag with the publish time as Last-Modified |
| Properties.LiveTokenServes | main.py:262-284 | in a valid store an unexpired token always reaches its asset's bytes: the foreign key makes the asset lookup succeed |
| Properties.TokenWindow | main.py:232 | a token issued at t gives 200 exactly when now <= t + 5 minutes and 403 exactly after |
| Properties.TokenBoundary | main.py:262 | the token is accepted at the expiry instant itself and refused one microsecond later |
| Properties.StepKeepsPublicResponse | main.py:179-194 | with a fresh upload id, no request changes the response of an existing version |
| Properties.RunKeepsPublicResponse | main.py:184 | along any run with fresh ids a published version keeps serving the same bytes and headers, as `immutable` promises |

## Left out

- FastAPI routing, `UploadFile` reading, dependency injection, session handling and `db.refresh`: framework plumbing. The health route (main.py:40-42) serves no asset.
- The S3 client (`app/storage`) and the engine set-up (`app/database`) are not part of this model. The blob store and the tables are maps. Storage and database failures appear only as the 500 that a missing blob or a rejected commit produces.
- SHA-256 and `strftime`: these are the parameters `hash` and `httpDate`. The model assumes only that the digest is 64 lower-case hex characters.
- `uuid.uuid4` and `secrets.token_urlsafe`: their values are inputs. The invariant lemmas assume a fresh UUID for uploads (`Service.FreshFor`). A colliding id or token is modelled as the rejected commit it would be.
- Headers the framework adds on its own are not modelled; a response holds only the headers the handler sets. This covers:
  - the automatic `content-length`, so HEAD on a public version carries no Content-Length here;
  - the `charset` Starlette appends to `text/*` media types;
  - the JSON serialisation of bodies.
- The 500 body is an abstract `InternalError`. The framework's error page is not modelled.
- Models.FindAsset: looks asset ids up as exact text, though `assets.id` is a UUID column (app/models.py:22). SQLAlchemy's conversion of the path string to a UUID is not modelled: it accepts upper-case or unhyphenated spellings, and makes non-UUID text fail with 500 rather than 404. The 404 of Api.DownloadAsset, Api.HeadAsset, Api.PublishAsset and Api.GenerateAccessToken inherits this.
- Models.FindVersion: the same for version ids, since `asset_versions.id` is a UUID column too (app/models.py:42), looked up from the path at main.py:172-174 and main.py:203-205. The 404 of Api.GetPublicVersion and Api.HeadPublicVersion inherits this.
- Api.HeadAsset: the content type is arbitrary text here. The multipart parser decodes part headers as Latin-1, so the Content-Type header, unlike Content-Disposition, always encodes, and the model does not check it.
- Api.GetPrivateAsset: treats `expires_at` and `datetime.utcnow()` as instants on one UTC clock. The naive/aware datetime mismatch, which depends on the database driver in `app/database`, is not modelled.
- `created_at` is the request's `now`, rather than the database's `func.now()`. This assumes the two clocks agree.
- Models.Asset: `size_bytes` is a `nat`. The 64-bit BigInteger column limit is not modelled; no upload comes near it.
- The `relationship(...)` attributes give navigation only and add no constraint. `is_private` is never set to true by any endpoint, so a private asset is not modelled beyond the flag.
- Concurrency: each request is one atomic transition.
- `scripts/run_benchmark.py`: network timing, not service logic.
