/** The Cache-Control response directives the service emits (section 5.2.2
    of RFC 9111, and `immutable` from RFC 8246), their text form, a reader
    for that text, and what each list of directives allows a cache to do. */
module CacheControl {
  import opened Text

  datatype Directive =
    | Public
    | Private
    | NoStore
    | NoCache
    | MustRevalidate
    | Immutable
    | MaxAge(seconds: nat)
    | SMaxAge(seconds: nat)

  /** A character that may appear inside a directive's text. */
  predicate IsDirectiveChar(c: char) {
    c != ',' && c != ' ' && c != '\t'
  }

  function DirectiveText(d: Directive): (t: string)
    ensures |t| > 0
    ensures forall i :: 0 <= i < |t| ==> IsDirectiveChar(t[i])
  {
    match d
    case Public => "public"
    case Private => "private"
    case NoStore => "no-store"
    case NoCache => "no-cache"
    case MustRevalidate => "must-revalidate"
    case Immutable => "immutable"
    case MaxAge(n) => "max-age=" + Decimal(n)
    case SMaxAge(n) => "s-maxage=" + Decimal(n)
  }

  /** A header value: the directives in order, separated by ", ". */
  function Render(ds: seq<Directive>): string
    requires |ds| > 0
  {
    if |ds| == 1 then DirectiveText(ds[0])
    else DirectiveText(ds[0]) + ", " + Render(ds[1..])
  }

  // ---------------------------------------------------------------------
  // Reading a header value back
  // ---------------------------------------------------------------------

  predicate IsSpace(c: char) {
    c == ' ' || c == '\t'
  }

  predicate AllSpaces(s: string) {
    forall i :: 0 <= i < |s| ==> IsSpace(s[i])
  }

  /** Index of the first comma, or |s| when there is none. */
  function CommaIndex(s: string): (i: nat)
    ensures i <= |s|
  {
    if |s| == 0 then 0
    else if s[0] == ',' then 0
    else 1 + CommaIndex(s[1..])
  }

  /** `s` without its leading whitespace. */
  function TrimLeft(s: string): (t: string)
    ensures |t| <= |s|
    ensures |t| > 0 ==> !IsSpace(t[0])
  {
    if |s| > 0 && IsSpace(s[0]) then TrimLeft(s[1..]) else s
  }

  /** `s` without its trailing whitespace. */
  function TrimRight(s: string): (t: string)
    ensures |t| <= |s|
    ensures |t| > 0 ==> !IsSpace(t[|t| - 1])
  {
    if |s| > 0 && IsSpace(s[|s| - 1]) then TrimRight(s[..|s| - 1]) else s
  }

  /** One list element with the optional whitespace around it dropped. */
  function ParseElement(s: string): Option<Directive> {
    ParseDirective(TrimRight(TrimLeft(s)))
  }

  function ParseSeconds(s: string): Option<nat> {
    if |s| > 0 && AllDigits(s) then Some(DecimalValue(s)) else None
  }

  function ParseDirective(t: string): Option<Directive> {
    if t == "public" then Some(Public)
    else if t == "private" then Some(Private)
    else if t == "no-store" then Some(NoStore)
    else if t == "no-cache" then Some(NoCache)
    else if t == "must-revalidate" then Some(MustRevalidate)
    else if t == "immutable" then Some(Immutable)
    else if |t| >= 8 && t[..8] == "max-age=" then
      match ParseSeconds(t[8..])
      case Some(n) => Some(MaxAge(n))
      case None => None
    else if |t| >= 9 && t[..9] == "s-maxage=" then
      match ParseSeconds(t[9..])
      case Some(n) => Some(SMaxAge(n))
      case None => None
    else None
  }

  /** The elements of a comma-separated list, whitespace not yet dropped. */
  function Split(s: string): (xs: seq<string>)
    ensures |xs| > 0
    decreases |s|
  {
    var i := CommaIndex(s);
    if i == |s| then [s] else [s[..i]] + Split(s[i + 1..])
  }

  function ParseElements(xs: seq<string>): Option<seq<Directive>> {
    if |xs| == 0 then Some([])
    else
      match ParseElement(xs[0])
      case None => None
      case Some(d) =>
        match ParseElements(xs[1..])
        case None => None
        case Some(ds) => Some([d] + ds)
  }

  /** Reads a comma-separated directive list; None when any element is not
      one of the directives above. */
  function Parse(s: string): Option<seq<Directive>> {
    ParseElements(Split(s))
  }

  lemma CommaIndexAfter(a: string, b: string)
    requires forall i :: 0 <= i < |a| ==> a[i] != ','
    ensures CommaIndex(a + b) == |a| + CommaIndex(b)
  {
    if |a| > 0 {
      assert (a + b)[0] == a[0];
      assert (a + b)[1..] == a[1..] + b;
      CommaIndexAfter(a[1..], b);
    } else {
      assert a + b == b;
    }
  }

  lemma TrimPadded(pad: string, t: string)
    requires AllSpaces(pad)
    requires |t| > 0 && forall i :: 0 <= i < |t| ==> IsDirectiveChar(t[i])
    ensures TrimRight(TrimLeft(pad + t)) == t
  {
    if |pad| > 0 {
      assert (pad + t)[1..] == pad[1..] + t;
      TrimPadded(pad[1..], t);
    } else {
      assert pad + t == t;
    }
  }

  lemma ParseDirectiveText(d: Directive)
    ensures ParseDirective(DirectiveText(d)) == Some(d)
  {
    match d
    case MaxAge(n) =>
      var t := DirectiveText(d);
      assert t[..8] == "max-age=" && t[8..] == Decimal(n);
      DecimalRoundTrip(n);
    case SMaxAge(n) =>
      var t := DirectiveText(d);
      assert t[..9] == "s-maxage=" && t[9..] == Decimal(n);
      assert t[..8] != "max-age=" by { assert t[0] == 's'; }
      DecimalRoundTrip(n);
    case _ =>
  }

  /** The elements Render writes, the first after `pad`. */
  function Elements(pad: string, ds: seq<Directive>): seq<string>
    requires |ds| > 0
    decreases ds
  {
    if |ds| == 1 then [pad + DirectiveText(ds[0])]
    else [pad + DirectiveText(ds[0])] + Elements(" ", ds[1..])
  }

  lemma NoCommaIn(pad: string, t: string)
    requires AllSpaces(pad)
    requires forall i :: 0 <= i < |t| ==> IsDirectiveChar(t[i])
    ensures forall i :: 0 <= i < |pad + t| ==> (pad + t)[i] != ','
  {
  }

  lemma SplitLast(a: string)
    requires forall i :: 0 <= i < |a| ==> a[i] != ','
    ensures Split(a) == [a]
  {
    CommaIndexAfter(a, "");
    assert a + "" == a;
  }

  lemma SplitFirst(a: string, b: string)
    requires forall i :: 0 <= i < |a| ==> a[i] != ','
    ensures Split(a + ", " + b) == [a] + Split(" " + b)
  {
    var s := a + ", " + b;
    CommaIndexAfter(a, ", " + b);
    assert s == a + (", " + b);
    assert s[..|a|] == a;
    assert s[|a| + 1..] == " " + b;
  }

  lemma {:induction false} SplitRender(pad: string, ds: seq<Directive>)
    requires |ds| > 0
    requires AllSpaces(pad)
    ensures Split(pad + Render(ds)) == Elements(pad, ds)
    decreases ds
  {
    var t := DirectiveText(ds[0]);
    NoCommaIn(pad, t);
    if |ds| == 1 {
      SplitLast(pad + t);
    } else {
      var rest := Render(ds[1..]);
      assert pad + Render(ds) == (pad + t) + ", " + rest;
      SplitFirst(pad + t, rest);
      SplitRender(" ", ds[1..]);
    }
  }

  lemma {:induction false} ParseElementsRendered(pad: string, ds: seq<Directive>)
    requires |ds| > 0
    requires AllSpaces(pad)
    ensures ParseElements(Elements(pad, ds)) == Some(ds)
    decreases ds
  {
    var t := DirectiveText(ds[0]);
    TrimPadded(pad, t);
    ParseDirectiveText(ds[0]);
    assert ParseElement(pad + t) == Some(ds[0]);
    var xs := Elements(pad, ds);
    if |ds| == 1 {
      assert xs[1..] == [];
      assert ParseElements(xs[1..]) == Some([]);
      assert [ds[0]] + [] == ds;
    } else {
      ParseElementsRendered(" ", ds[1..]);
      assert xs[1..] == Elements(" ", ds[1..]);
      assert [ds[0]] + ds[1..] == ds;
    }
  }

  /** Reading a rendered list, after any leading whitespace, gives the list
      back. */
  lemma ParseRender(ds: seq<Directive>, pad: string)
    requires |ds| > 0
    requires AllSpaces(pad)
    ensures Parse(pad + Render(ds)) == Some(ds)
  {
    SplitRender(pad, ds);
    ParseElementsRendered(pad, ds);
  }

  // ---------------------------------------------------------------------
  // What a directive list allows (RFC 9111)
  // ---------------------------------------------------------------------

  predicate NoMaxAgeBefore(ds: seq<Directive>, i: nat)
    requires i <= |ds|
  {
    forall j :: 0 <= j < i ==> !ds[j].MaxAge?
  }

  predicate NoSMaxAgeBefore(ds: seq<Directive>, i: nat)
    requires i <= |ds|
  {
    forall j :: 0 <= j < i ==> !ds[j].SMaxAge?
  }

  /** The first max-age value, if any. */
  function MaxAgeOf(ds: seq<Directive>): (r: Option<nat>)
    ensures r.Some? ==> exists i :: 0 <= i < |ds| && ds[i] == MaxAge(r.value) && NoMaxAgeBefore(ds, i)
    ensures r.None? ==> forall n :: MaxAge(n) !in ds
  {
    if |ds| == 0 then None
    else if ds[0].MaxAge? then Some(ds[0].seconds)
    else MaxAgeOf(ds[1..])
  }

  /** The first s-maxage value, if any. */
  function SMaxAgeOf(ds: seq<Directive>): (r: Option<nat>)
    ensures r.Some? ==> exists i :: 0 <= i < |ds| && ds[i] == SMaxAge(r.value) && NoSMaxAgeBefore(ds, i)
    ensures r.None? ==> forall n :: SMaxAge(n) !in ds
  {
    if |ds| == 0 then None
    else if ds[0].SMaxAge? then Some(ds[0].seconds)
    else SMaxAgeOf(ds[1..])
  }

  /** Freshness lifetime for a shared cache: s-maxage overrides max-age
      (section 4.2.1 of RFC 9111). */
  function SharedLifetime(ds: seq<Directive>): Option<nat> {
    if SMaxAgeOf(ds).Some? then SMaxAgeOf(ds) else MaxAgeOf(ds)
  }

  /** Freshness lifetime for a private cache, which ignores s-maxage
      (section 5.2.2.10 of RFC 9111). */
  function PrivateLifetime(ds: seq<Directive>): Option<nat> {
    MaxAgeOf(ds)
  }

  /** no-store forbids every cache to store the response; private forbids
      shared caches (sections 5.2.2.5 and 5.2.2.7 of RFC 9111). */
  predicate SharedMayStore(ds: seq<Directive>) {
    NoStore !in ds && Private !in ds
  }

  predicate PrivateMayStore(ds: seq<Directive>) {
    NoStore !in ds
  }

  /** no-cache: a stored response must be validated before every reuse
      (section 5.2.2.4 of RFC 9111). */
  predicate ValidateEveryUse(ds: seq<Directive>) {
    NoCache in ds
  }

  /** immutable: a fresh response is not revalidated (RFC 8246). */
  predicate NeverRevalidateWhileFresh(ds: seq<Directive>) {
    Immutable in ds
  }
}
