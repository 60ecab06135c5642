/** The three Cache-Control values main.py sends, and what each one
    allows caches to do. */
module CachePolicy {
  import opened Text
  import opened CacheControl

  /** Mutable download (GET and HEAD /assets/{id}/download). */
  const MutableCacheControl := "public, s-maxage=3600, max-age=60"
  /** Published version (GET and HEAD /assets/public/{version_id}). */
  const ImmutableCacheControl := "public, max-age=31536000, immutable"
  /** Token-gated download (GET /assets/private/{token}). */
  const PrivateCacheControl := "private, no-store, no-cache, must-revalidate"

  /** The directive lists those three header values spell. */
  const MutableDirectives := [Public, SMaxAge(3600), MaxAge(60)]
  const ImmutableDirectives := [Public, MaxAge(31536000), Immutable]
  const PrivateDirectives := [Private, NoStore, NoCache, MustRevalidate]

  lemma Decimal60()
    ensures Decimal(60) == "60"
  {
  }

  lemma Decimal3600()
    ensures Decimal(3600) == "3600"
  {
  }

  lemma Decimal31536000()
    ensures Decimal(31536000) == "31536000"
  {
    assert Decimal(31) == Decimal(3) + "1";
    assert Decimal(315) == Decimal(31) + "5";
    assert Decimal(3153) == Decimal(315) + "3";
    assert Decimal(31536) == Decimal(3153) + "6";
    assert Decimal(315360) == Decimal(31536) + "0";
    assert Decimal(3153600) == Decimal(315360) + "0";
  }

  // Each rendering is first shown to be a concatenation of the directive
  // texts, and that concatenation is then compared with the literal.

  lemma MutableText()
    ensures "public" + ", " + ("s-maxage=" + "3600" + ", " + ("max-age=" + "60")) == MutableCacheControl
  {
  }

  lemma ImmutableText()
    ensures "public" + ", " + ("max-age=" + "31536000" + ", " + "immutable") == ImmutableCacheControl
  {
  }

  lemma PrivateText()
    ensures "private" + ", " + ("no-store" + ", " + ("no-cache" + ", " + "must-revalidate"))
         == PrivateCacheControl
  {
  }

  lemma RenderMutable()
    ensures Render(MutableDirectives) == MutableCacheControl
  {
    var ds := MutableDirectives;
    Decimal60();
    Decimal3600();
    assert ds[1..][1..] == [MaxAge(60)];
    assert Render(ds) == "public" + ", " + ("s-maxage=" + "3600" + ", " + ("max-age=" + "60"));
    MutableText();
  }

  lemma RenderImmutable()
    ensures Render(ImmutableDirectives) == ImmutableCacheControl
  {
    var ds := ImmutableDirectives;
    Decimal31536000();
    assert ds[1..][1..] == [Immutable];
    assert Render(ds) == "public" + ", " + ("max-age=" + "31536000" + ", " + "immutable");
    ImmutableText();
  }

  lemma RenderPrivate()
    ensures Render(PrivateDirectives) == PrivateCacheControl
  {
    var ds := PrivateDirectives;
    assert ds[1..][1..][1..] == [MustRevalidate];
    assert Render(ds) == "private" + ", " + ("no-store" + ", " + ("no-cache" + ", " + "must-revalidate"));
    PrivateText();
  }

  /** The header value reads back as the list it was written from. */
  lemma ReadsBack(ds: seq<Directive>, text: string)
    requires |ds| > 0 && Render(ds) == text
    ensures Parse(text) == Some(ds)
  {
    ParseRender(ds, "");
    assert "" + text == text;
  }

  /** Each header value the service sends reads back as its directive list. */
  lemma MutableParses()
    ensures Parse(MutableCacheControl) == Some(MutableDirectives)
  {
    RenderMutable();
    ReadsBack(MutableDirectives, MutableCacheControl);
  }

  lemma ImmutableParses()
    ensures Parse(ImmutableCacheControl) == Some(ImmutableDirectives)
  {
    RenderImmutable();
    ReadsBack(ImmutableDirectives, ImmutableCacheControl);
  }

  lemma PrivateParses()
    ensures Parse(PrivateCacheControl) == Some(PrivateDirectives)
  {
    RenderPrivate();
    ReadsBack(PrivateDirectives, PrivateCacheControl);
  }

  lemma MutableLifetimes()
    ensures SharedLifetime(MutableDirectives) == Some(60 * 60)
    ensures PrivateLifetime(MutableDirectives) == Some(60)
  {
  }

  lemma ImmutableLifetimes()
    ensures SharedLifetime(ImmutableDirectives) == Some(365 * 24 * 60 * 60)
    ensures PrivateLifetime(ImmutableDirectives) == Some(365 * 24 * 60 * 60)
  {
  }

  lemma PrivateLifetimes()
    ensures SharedLifetime(PrivateDirectives).None? && PrivateLifetime(PrivateDirectives).None?
  {
  }

  lemma MutableStorage()
    ensures SharedMayStore(MutableDirectives) && PrivateMayStore(MutableDirectives)
    ensures !ValidateEveryUse(MutableDirectives) && !NeverRevalidateWhileFresh(MutableDirectives)
  {
  }

  lemma ImmutableStorage()
    ensures SharedMayStore(ImmutableDirectives) && PrivateMayStore(ImmutableDirectives)
    ensures NeverRevalidateWhileFresh(ImmutableDirectives) && !ValidateEveryUse(ImmutableDirectives)
  {
  }

  lemma PrivateStorage()
    ensures !SharedMayStore(PrivateDirectives) && !PrivateMayStore(PrivateDirectives)
    ensures ValidateEveryUse(PrivateDirectives)
  {
  }

  /** Shared caches keep the mutable download for an hour, private caches
      for a minute; both may store it. */
  lemma MutableCacheControlMeaning()
    ensures Parse(MutableCacheControl) == Some(MutableDirectives)
    ensures SharedLifetime(MutableDirectives) == Some(60 * 60)
    ensures PrivateLifetime(MutableDirectives) == Some(60)
    ensures SharedMayStore(MutableDirectives) && PrivateMayStore(MutableDirectives)
    ensures !ValidateEveryUse(MutableDirectives) && !NeverRevalidateWhileFresh(MutableDirectives)
  {
    MutableParses();
    MutableLifetimes();
    MutableStorage();
  }

  /** A published version is fresh for 365 days in every cache and is
      never revalidated while fresh. */
  lemma ImmutableCacheControlMeaning()
    ensures Parse(ImmutableCacheControl) == Some(ImmutableDirectives)
    ensures SharedLifetime(ImmutableDirectives) == Some(365 * 24 * 60 * 60)
    ensures PrivateLifetime(ImmutableDirectives) == Some(365 * 24 * 60 * 60)
    ensures SharedMayStore(ImmutableDirectives) && PrivateMayStore(ImmutableDirectives)
    ensures NeverRevalidateWhileFresh(ImmutableDirectives) && !ValidateEveryUse(ImmutableDirectives)
  {
    ImmutableParses();
    ImmutableLifetimes();
    ImmutableStorage();
  }

  /** No cache, shared or private, may store a private download, and a
      stored copy would have to be revalidated on every use. */
  lemma PrivateCacheControlMeaning()
    ensures Parse(PrivateCacheControl) == Some(PrivateDirectives)
    ensures !SharedMayStore(PrivateDirectives) && !PrivateMayStore(PrivateDirectives)
    ensures ValidateEveryUse(PrivateDirectives)
    ensures SharedLifetime(PrivateDirectives).None? && PrivateLifetime(PrivateDirectives).None?
  {
    PrivateParses();
    PrivateLifetimes();
    PrivateStorage();
  }
}
