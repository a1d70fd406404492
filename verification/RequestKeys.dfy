/**
 The keys under which requests share their work: a fingerprint of everything about a request that a
 target can see, or the key of its cached response. Digests and the JSON encoding are parameters.
 */
module RequestKeys {
  import opened Text
  import opened Numerals
  import opened Ordering
  import Responses
  import Coalescing

  type Headers = Responses.Headers

  datatype Route = Route(identity: nat, slug: string, strategy: string)

  datatype Target = Target(serviceIdentity: nat, service: string, endpointIdentity: nat, endpoint: string)

  /** An authenticated client. What it consumed are Python sets, listed here in any order. */
  datatype Client = Client(slug: string, code: string, methodCode: string, kind: string, source: string,
                           metadata: map<string, string>,
                           headers: seq<string>, queryParams: seq<string>, cookies: seq<string>)

  /** Everything the key of an uncached request is made from. */
  datatype Context = Context(
    route: Route, targets: seq<Target>,
    verb: string, path: string, url: string, query: map<string, string>,
    headers: Headers, body: string, json: string, address: string,
    authenticated: Option<Client>, forwarded: Option<Client>)

  datatype ClientPart = ClientPart(slug: string, code: string, methodCode: string, kind: string, source: string,
                                   metadata: map<string, string>,
                                   headers: seq<string>, queryParams: seq<string>, cookies: seq<string>)

  datatype Fingerprint = Fingerprint(
    route: Route, targets: seq<Target>,
    verb: string, path: string, url: string, query: map<string, string>,
    headers: seq<(string, string)>, bodyDigest: string, json: string, address: string,
    authenticated: Option<ClientPart>, forwarded: Option<ClientPart>)

  datatype Hashing = Hashing(canonical: Fingerprint -> string, digest: string -> string)

  /** Different inputs get different encodings and different digests. */
  ghost predicate OneToOne(H: Hashing) {
    && (forall a, b :: H.canonical(a) == H.canonical(b) ==> a == b)
    && (forall a, b :: H.digest(a) == H.digest(b) ==> a == b)
  }

  // ---------------------------------------------------------------------------
  // The fingerprint
  // ---------------------------------------------------------------------------

  /** Names in lower case, and no request ids. */
  function Relevant(h: Headers): seq<(string, string)> {
    if h == [] then []
    else if Lower(h[0].name) == "x-request-id" then Relevant(h[1..])
    else [(Lower(h[0].name), h[0].value)] + Relevant(h[1..])
  }

  function LowerAll(names: seq<string>): seq<string> {
    seq(|names|, i requires 0 <= i < |names| => Lower(names[i]))
  }

  function PartOf(client: Option<Client>): Option<ClientPart> {
    match client
    case None => None
    case Some(c) => Some(ClientPart(c.slug, c.code, c.methodCode, c.kind, c.source, c.metadata,
                                    Sort(StringLe, LowerAll(c.headers)), Sort(StringLe, c.queryParams), Sort(StringLe, c.cookies)))
  }

  function FingerprintOf(H: Hashing, x: Context): Fingerprint {
    Fingerprint(x.route, x.targets, x.verb, x.path, x.url, x.query,
                Sort(PairLe, Relevant(x.headers)), H.digest(x.body), x.json, x.address,
                PartOf(x.authenticated), PartOf(x.forwarded))
  }

  function RequestDigest(H: Hashing, x: Context): string {
    H.digest(H.canonical(FingerprintOf(H, x)))
  }

  // ---------------------------------------------------------------------------
  // What equal fingerprints mean
  // ---------------------------------------------------------------------------

  /** The same client, up to the order of what it consumed and the case of header names. */
  ghost predicate SameClient(a: Option<Client>, b: Option<Client>) {
    match (a, b)
    case (None, None) => true
    case (Some(c), Some(d)) =>
      && c.(headers := [], queryParams := [], cookies := []) == d.(headers := [], queryParams := [], cookies := [])
      && multiset(LowerAll(c.headers)) == multiset(LowerAll(d.headers))
      && multiset(c.queryParams) == multiset(d.queryParams)
      && multiset(c.cookies) == multiset(d.cookies)
    case _ => false
  }

  lemma PartsCompare(a: Option<Client>, b: Option<Client>)
    ensures PartOf(a) == PartOf(b) <==> SameClient(a, b)
    ensures SameClient(a, b) <==>
              || (a.None? && b.None?)
              || (&& a.Some? && b.Some?
                  && a.value.slug == b.value.slug && a.value.code == b.value.code && a.value.methodCode == b.value.methodCode
                  && a.value.kind == b.value.kind && a.value.source == b.value.source && a.value.metadata == b.value.metadata
                  && multiset(LowerAll(a.value.headers)) == multiset(LowerAll(b.value.headers))
                  && multiset(a.value.queryParams) == multiset(b.value.queryParams)
                  && multiset(a.value.cookies) == multiset(b.value.cookies))
  {
    StringOrder();
    if a.Some? && b.Some? {
      SortIsCanonical(StringLe, LowerAll(a.value.headers), LowerAll(b.value.headers));
      SortIsCanonical(StringLe, a.value.queryParams, b.value.queryParams);
      SortIsCanonical(StringLe, a.value.cookies, b.value.cookies);
    }
  }

  /**
   Two uncached requests get the same key exactly when they agree on route, targets, method, path,
   URL, query, body, address and identities, and on the multiset of their headers other than the
   request id, names compared without case.
   */
  lemma KeyTheorem(H: Hashing, a: Context, b: Context)
    requires OneToOne(H)
    ensures RequestDigest(H, a) == RequestDigest(H, b) <==>
              && a.route == b.route && a.targets == b.targets && a.verb == b.verb && a.path == b.path && a.url == b.url
              && a.query == b.query && a.body == b.body && a.json == b.json && a.address == b.address
              && multiset(Relevant(a.headers)) == multiset(Relevant(b.headers))
              && SameClient(a.authenticated, b.authenticated) && SameClient(a.forwarded, b.forwarded)
  {
    PairOrder();
    SortIsCanonical(PairLe, Relevant(a.headers), Relevant(b.headers));
    PartsCompare(a.authenticated, b.authenticated);
    PartsCompare(a.forwarded, b.forwarded);
  }

  lemma {:induction false} RelevantConcat(g: Headers, h: Headers)
    ensures Relevant(g + h) == Relevant(g) + Relevant(h)
  {
    if g == [] {
      assert g + h == h;
    } else {
      assert (g + h)[1..] == g[1..] + h;
      RelevantConcat(g[1..], h);
    }
  }

  lemma SameHeaders(H: Hashing, x: Context, g: Headers, h: Headers)
    requires OneToOne(H) && multiset(Relevant(g)) == multiset(Relevant(h))
    ensures RequestDigest(H, x.(headers := g)) == RequestDigest(H, x.(headers := h))
  {
    KeyTheorem(H, x.(headers := g), x.(headers := h));
  }

  /** Moving a header to the front, changing the case of its name, or adding a request id keeps the key. */
  lemma KeyIgnores(H: Hashing, x: Context, front: Headers, h: Responses.Header, back: Headers, name: string, id: Responses.Header)
    requires OneToOne(H) && Lower(name) == Lower(h.name) && Lower(id.name) == "x-request-id"
    ensures var key := RequestDigest(H, x.(headers := front + [h] + back));
            && RequestDigest(H, x.(headers := [h] + (front + back))) == key
            && RequestDigest(H, x.(headers := front + [Responses.Header(name, h.value)] + back)) == key
            && RequestDigest(H, x.(headers := front + [h] + back + [id])) == key
  {
    var all, renamed := front + [h] + back, Responses.Header(name, h.value);
    RelevantOne(front, h, back);
    RelevantOne(front, renamed, back);
    RelevantConcat([h], front + back);
    RelevantConcat(front, back);
    RelevantConcat(all, [id]);
    RelevantOne([], id, []);
    assert Relevant(all + [id]) == Relevant(all);
    SameHeaders(H, x, [h] + (front + back), all);
    SameHeaders(H, x, front + [renamed] + back, all);
    SameHeaders(H, x, all + [id], all);
  }

  lemma RelevantOne(front: Headers, h: Responses.Header, back: Headers)
    ensures Relevant(front + [h] + back) == Relevant(front) + Relevant([h]) + Relevant(back)
    ensures Relevant([h]) == if Lower(h.name) == "x-request-id" then [] else [(Lower(h.name), h.value)]
  {
    RelevantConcat(front + [h], back);
    RelevantConcat(front, [h]);
    assert [h][1..] == [];
  }

  // ---------------------------------------------------------------------------
  // Key texts
  // ---------------------------------------------------------------------------

  const CACHE := "cache:"
  const REQUEST := "request:"

  function KeyText(k: Coalescing.Key): string {
    match k
    case CacheBacked(route, ck) => CACHE + (Decimal(route) + (":" + ck))
    case Fingerprint(digest) => REQUEST + digest
  }

  /** Digits before a colon are determined. */
  lemma DigitsEnd(a: string, b: string, x: string, y: string)
    requires a + (":" + x) == b + (":" + y)
    requires forall c :: c in a || c in b ==> '0' <= c <= '9'
    ensures a == b && x == y
  {
    var s := a + (":" + x);
    assert s[|a|] == ':' && s[|b|] == ':';
    assert forall i :: 0 <= i < |a| ==> s[i] == a[i] && a[i] in a;
    assert forall i :: 0 <= i < |b| ==> s[i] == b[i] && b[i] in b;
    assert a == s[..|a|] == b;
    assert ":" + x == s[|a|..] == ":" + y;
    assert x == (":" + x)[1..] && y == (":" + y)[1..];
  }

  /** The texts of two keys are equal only if the keys are: neither kind of key runs into the other. */
  lemma KeyTextTheorem(a: Coalescing.Key, b: Coalescing.Key)
    requires KeyText(a) == KeyText(b)
    ensures a == b
  {
    var s := KeyText(a);
    assert s[0] == if a.CacheBacked? then 'c' else 'r';
    assert s[0] == if b.CacheBacked? then 'c' else 'r';
    if a.CacheBacked? {
      assert s[|CACHE|..] == Decimal(a.route) + (":" + a.cacheKey) == Decimal(b.route) + (":" + b.cacheKey);
      DigitsEnd(Decimal(a.route), Decimal(b.route), a.cacheKey, b.cacheKey);
      DecimalIsOneToOne(a.route, b.route);
    } else {
      assert s[|REQUEST|..] == a.digest == b.digest;
    }
  }

  // ---------------------------------------------------------------------------
  // Which key a request gets
  // ---------------------------------------------------------------------------

  /**
   What decides how a request is treated: `buffered` says that no target of the route streams, and
   `caching` that the cache configuration of the matched one is on.
   */
  datatype Situation = Situation(
    route: nat, bypass: bool, targets: nat, buffered: bool,
    caching: bool, listed: bool, safe: bool,
    cacheKey: string, digest: string)

  function KeyOf(t: Situation): Option<Coalescing.Key> {
    if t.bypass then None
    else if t.targets == 0 || !t.buffered then None
    else if t.caching && t.listed then Some(Coalescing.CacheBacked(t.route, t.cacheKey))
    else if !t.safe then None
    else Some(Coalescing.Fingerprint(t.digest))
  }

  function LookupOf(t: Situation): Option<string> {
    if t.bypass || !t.caching || !t.listed then None else Some(t.cacheKey)
  }

  function StoreOf(t: Situation): Option<string> {
    if !t.caching || !t.listed then None else Some(t.cacheKey)
  }

  function KindOf(t: Situation): Coalescing.Request {
    if t.bypass then Coalescing.Bypass(StoreOf(t))
    else if t.caching && t.listed && t.targets > 0 && t.buffered then Coalescing.Cached(t.route, t.cacheKey)
    else if t.caching && t.listed then Coalescing.Solo(t.cacheKey)
    else if t.targets > 0 && t.buffered && t.safe then Coalescing.Shared(t.digest)
    else Coalescing.Alone
  }

  /** The kinds of requests in the transition system are all there are: they look up, share and store alike. */
  lemma KindTheorem(t: Situation)
    ensures Coalescing.CoalescingKey(KindOf(t)) == KeyOf(t)
    ensures Coalescing.LookupKey(KindOf(t)) == LookupOf(t)
    ensures Coalescing.StoreKey(KindOf(t)) == StoreOf(t)
    ensures Coalescing.CoalescingKey(KindOf(t))
            == (if !t.bypass && t.targets > 0 && t.buffered && t.caching && t.listed then
                  Some(Coalescing.CacheBacked(t.route, t.cacheKey))
                else if !t.bypass && t.targets > 0 && t.buffered && t.safe then Some(Coalescing.Fingerprint(t.digest))
                else None)
    ensures Coalescing.LookupKey(KindOf(t)) == if !t.bypass && t.caching && t.listed then Some(t.cacheKey) else None
    ensures Coalescing.StoreKey(KindOf(t)) == if t.caching && t.listed then Some(t.cacheKey) else None
  {
  }
}
