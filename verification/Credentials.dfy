/**
 Finding the client whose credentials a request carries: the search over clients, their
 authentication methods and the targets of a route.
 */
module Credentials {
  import opened Text

  datatype EndpointRef = EndpointRef(service: string, endpoint: string)

  /** The access modes "all" and "services"; any other mode lists endpoints. */
  datatype Access = Access(mode: string, services: seq<string>, endpoints: seq<EndpointRef>)

  datatype AuthMethod = AuthMethod(code: string, enabled: bool, kind: string)

  datatype Client = Client(code: string, enabled: bool, access: Access, methods: seq<AuthMethod>, allowlist: seq<string>)

  datatype Target = Target(service: string, name: string, slug: string)

  datatype Identity = Identity(clientCode: string, methodCode: string, source: string)

  /** A search; whether credentials match and whether an address is on a list are parameters. */
  datatype Search = Search(
    clients: seq<Client>,
    targets: seq<Target>,
    address: string,
    credentials: (Client, AuthMethod, Target) -> Option<Identity>,
    onList: (string, seq<string>) -> bool)

  datatype Found = Anonymous | Authenticated(identity: Identity) | Unauthorized | Forbidden(clientCode: string)

  predicate ScopeApplies(client: Client, target: Target) {
    match client.access.mode
    case "all" => true
    case "services" => target.service in client.access.services
    case _ =>
      || EndpointRef(target.service, target.name) in client.access.endpoints
      || EndpointRef(target.service, target.slug) in client.access.endpoints
  }

  // ---------------------------------------------------------------------------
  // The specification
  // ---------------------------------------------------------------------------

  /** Positions of a client, one of its methods, and a target. */
  datatype Triple = Triple(client: nat, auth: nat, target: nat)

  /** The order of the search. */
  predicate Before(a: Triple, b: Triple) {
    || a.client < b.client
    || (a.client == b.client && (a.auth < b.auth || (a.auth == b.auth && a.target < b.target)))
  }

  predicate Within(S: Search, t: Triple) {
    t.client < |S.clients| && t.auth < |S.clients[t.client].methods| && t.target < |S.targets|
  }

  /** Client and method are enabled, the client's scope covers the target, and the credentials match. */
  predicate Hit(S: Search, t: Triple) {
    && Within(S, t)
    && var client := S.clients[t.client];
       && client.enabled && client.methods[t.auth].enabled
       && ScopeApplies(client, S.targets[t.target])
       && S.credentials(client, client.methods[t.auth], S.targets[t.target]).Some?
  }

  predicate Permitted(S: Search, client: Client) {
    client.allowlist == [] || S.onList(S.address, client.allowlist)
  }

  /** A hit that ends the search: in strict mode every hit does. */
  predicate Ends(S: Search, strict: bool, t: Triple) {
    Hit(S, t) && (strict || Permitted(S, S.clients[t.client]))
  }

  ghost predicate EndsFirst(S: Search, strict: bool, t: Triple) {
    Ends(S, strict, t) && forall u :: Ends(S, strict, u) ==> !Before(u, t)
  }

  function IdentityAt(S: Search, t: Triple): Identity
    requires Hit(S, t)
  {
    var client := S.clients[t.client];
    S.credentials(client, client.methods[t.auth], S.targets[t.target]).value
  }

  /** The answer of a search, told from the first triple that ends it. */
  ghost predicate Answers(S: Search, required: bool, enforced: bool, r: Found) {
    var strict := required && enforced;
    match r
    case Authenticated(identity) =>
      exists t :: EndsFirst(S, strict, t) && Permitted(S, S.clients[t.client]) && IdentityAt(S, t) == identity
    case Forbidden(code) =>
      strict && exists t :: EndsFirst(S, strict, t) && !Permitted(S, S.clients[t.client]) && S.clients[t.client].code == code
    case Unauthorized => required && S.targets != [] && forall t :: !Ends(S, strict, t)
    case Anonymous => S.targets == [] || (!required && forall t :: !Ends(S, strict, t))
  }

  // ---------------------------------------------------------------------------
  // The search
  // ---------------------------------------------------------------------------

  predicate Eligible(S: Search, client: Client) {
    client.enabled && exists i :: 0 <= i < |S.targets| && ScopeApplies(client, S.targets[i])
  }

  /** Every triple that ends the search comes at or after these positions. */
  ghost predicate NoneBefore(S: Search, strict: bool, client: nat, auth: nat, target: nat) {
    forall u :: Ends(S, strict, u) ==> !Before(u, Triple(client, auth, target))
  }

  method EligibleClients(S: Search) returns (eligible: seq<Client>, ghost origin: seq<nat>)
    ensures |origin| == |eligible|
    ensures forall i :: 0 <= i < |origin| ==> origin[i] < |S.clients| && eligible[i] == S.clients[origin[i]]
    ensures forall i, j :: 0 <= i < j < |origin| ==> origin[i] < origin[j]
    ensures forall n :: 0 <= n < |S.clients| ==> (n in origin <==> Eligible(S, S.clients[n]))
  {
    eligible, origin := [], [];
    for n := 0 to |S.clients|
      invariant |origin| == |eligible|
      invariant forall i :: 0 <= i < |origin| ==> origin[i] < n && eligible[i] == S.clients[origin[i]]
      invariant forall i, j :: 0 <= i < j < |origin| ==> origin[i] < origin[j]
      invariant forall m :: 0 <= m < n ==> (m in origin <==> Eligible(S, S.clients[m]))
    {
      if Eligible(S, S.clients[n]) {
        eligible, origin := eligible + [S.clients[n]], origin + [n];
      }
    }
  }

  /** Where the search stands before eligible client i. */
  ghost function Bound(S: Search, origin: seq<nat>, i: nat): nat {
    if i < |origin| then origin[i] else |S.clients|
  }

  /** Nothing between one eligible client and the next ends the search. */
  lemma SkipIneligible(S: Search, strict: bool, origin: seq<nat>, i: nat, from: nat)
    requires NoneBefore(S, strict, from, 0, 0) && i <= |origin|
    requires forall k :: 0 <= k < i ==> origin[k] < from
    requires forall k, l :: 0 <= k < l < |origin| ==> origin[k] < origin[l]
    requires forall n :: 0 <= n < |S.clients| ==> (n in origin <==> Eligible(S, S.clients[n]))
    ensures NoneBefore(S, strict, Bound(S, origin, i), 0, 0)
  {
    forall u | Ends(S, strict, u)
      ensures !Before(u, Triple(Bound(S, origin, i), 0, 0))
    {
      assert Eligible(S, S.clients[u.client]);
      assert u.client in origin;
      var k :| 0 <= k < |origin| && origin[k] == u.client;
      assert !Before(u, Triple(from, 0, 0));
    }
  }

  method MatchScopedClientCredentials(S: Search, required: bool, enforced: bool) returns (r: Found)
    ensures Answers(S, required, enforced, r)
  {
    if S.targets == [] {
      return Anonymous;
    }
    ghost var strict := required && enforced;
    var eligible, origin := EligibleClients(S);
    SkipIneligible(S, strict, origin, 0, 0);
    for i := 0 to |eligible|
      invariant NoneBefore(S, strict, Bound(S, origin, i), 0, 0)
    {
      var client := eligible[i];
      for j := 0 to |client.methods|
        invariant NoneBefore(S, strict, origin[i], j, 0)
      {
        var auth := client.methods[j];
        if auth.enabled {
          for k := 0 to |S.targets|
            invariant NoneBefore(S, strict, origin[i], j, k)
          {
            if ScopeApplies(client, S.targets[k]) {
              ghost var t := Triple(origin[i], j, k);
              var identity := S.credentials(client, auth, S.targets[k]);
              if identity.Some? {
                assert Hit(S, t);
                if client.allowlist != [] && !S.onList(S.address, client.allowlist) {
                  if required && enforced {
                    assert EndsFirst(S, strict, t);
                    return Forbidden(client.code);
                  }
                } else {
                  assert EndsFirst(S, strict, t);
                  return Authenticated(identity.value);
                }
              }
            }
          }
        }
      }
      SkipIneligible(S, strict, origin, i + 1, origin[i] + 1);
    }
    r := if required then Unauthorized else Anonymous;
  }

  // ---------------------------------------------------------------------------
  // What the answer tells
  // ---------------------------------------------------------------------------

  lemma EndsFirstIsUnique(S: Search, strict: bool, t: Triple, u: Triple)
    requires EndsFirst(S, strict, t) && EndsFirst(S, strict, u)
    ensures t == u
  {
  }

  /** There is one answer to a search. */
  lemma AnswerIsUnique(S: Search, required: bool, enforced: bool, a: Found, b: Found)
    requires Answers(S, required, enforced, a) && Answers(S, required, enforced, b)
    ensures a == b
  {
    var strict := required && enforced;
    forall t, u | EndsFirst(S, strict, t) && EndsFirst(S, strict, u)
      ensures t == u
    {
      EndsFirstIsUnique(S, strict, t, u);
    }
  }

  /** Credentials that match somewhere in scope, on an enabled client and method, from a permitted address. */
  predicate Good(S: Search, t: Triple) {
    Hit(S, t) && Permitted(S, S.clients[t.client])
  }

  /**
   An authenticated route answers 401 exactly when nothing in scope matches, 403 exactly when the
   first match comes from an address off its client's list, and otherwise lets that first match in;
   but a route without targets lets everyone in. An optional search finds somebody exactly when there
   is a permitted match, and finds the first.
   */
  lemma SearchTheorem(S: Search, r: Found)
    ensures Answers(S, true, true, r) ==>
              && (r.Unauthorized? <==> S.targets != [] && forall t :: !Hit(S, t))
              && (r.Forbidden? <==> exists t :: EndsFirst(S, true, t) && !Permitted(S, S.clients[t.client]))
              && (r.Authenticated? <==> exists t :: EndsFirst(S, true, t) && Permitted(S, S.clients[t.client]))
              && (r.Anonymous? <==> S.targets == [])
    ensures Answers(S, false, false, r) ==>
              && (r.Anonymous? <==> forall t :: !Good(S, t))
              && (r.Authenticated? ==> exists t :: Good(S, t) && IdentityAt(S, t) == r.identity
                                                   && forall u :: Good(S, u) ==> !Before(u, t))
              && !r.Unauthorized? && !r.Forbidden?
  {
    forall t | Ends(S, true, t) || Ends(S, false, t)
      ensures Hit(S, t) && S.targets != []
    {
    }
    if Answers(S, true, true, r) {
      RequiredSearch(S, r);
    }
    if Answers(S, false, false, r) {
      forall t
        ensures Good(S, t) <==> Ends(S, false, t)
      {
      }
      if r.Authenticated? {
        var t :| EndsFirst(S, false, t) && IdentityAt(S, t) == r.identity;
        assert Good(S, t);
      }
    }
  }

  /**
   The winner `w` of a search: an enabled method of an enabled client whose access covers the target and whose
   credentials match, at an address that is permitted unless the search is strict. Nothing that qualifies comes
   before it; the answer is its identity, or 403 for its client when the address is not permitted. Without a
   winner the answer is 401 where somebody is required, and nobody otherwise.
   */
  lemma WinnerTheorem(S: Search, required: bool, enforced: bool, r: Found, x: Triple) returns (w: Triple)
    requires Answers(S, required, enforced, r)
    ensures r.Authenticated? || r.Forbidden? ==>
              && w.client < |S.clients| && w.auth < |S.clients[w.client].methods| && w.target < |S.targets|
              && var client, target := S.clients[w.client], S.targets[w.target];
                 var auth := client.methods[w.auth];
                 && client.enabled && auth.enabled && S.credentials(client, auth, target).Some?
                 && (|| client.access.mode == "all"
                     || (client.access.mode == "services" && target.service in client.access.services)
                     || (client.access.mode != "services"
                         && (|| EndpointRef(target.service, target.name) in client.access.endpoints
                             || EndpointRef(target.service, target.slug) in client.access.endpoints)))
                 && if client.allowlist == [] || S.onList(S.address, client.allowlist)
                    then r == Authenticated(S.credentials(client, auth, target).value)
                    else required && enforced && r == Forbidden(client.code)
    ensures x.client < |S.clients| && x.auth < |S.clients[x.client].methods| && x.target < |S.targets| ==>
              var client, target := S.clients[x.client], S.targets[x.target];
              var auth := client.methods[x.auth];
              && client.enabled && auth.enabled && S.credentials(client, auth, target).Some?
              && (|| client.access.mode == "all"
                  || (client.access.mode == "services" && target.service in client.access.services)
                  || (client.access.mode != "services"
                      && (|| EndpointRef(target.service, target.name) in client.access.endpoints
                          || EndpointRef(target.service, target.slug) in client.access.endpoints)))
              && ((required && enforced) || client.allowlist == [] || S.onList(S.address, client.allowlist))
              ==>
                && (r.Authenticated? || r.Forbidden?)
                && (w.client < x.client
                    || (w.client == x.client && (w.auth < x.auth || (w.auth == x.auth && w.target <= x.target))))
    ensures !r.Authenticated? && !r.Forbidden? ==> r == if required && S.targets != [] then Unauthorized else Anonymous
  {
    var strict := required && enforced;
    w := x;
    if r.Authenticated? {
      w :| EndsFirst(S, strict, w) && Permitted(S, S.clients[w.client]) && IdentityAt(S, w) == r.identity;
    } else if r.Forbidden? {
      w :| EndsFirst(S, strict, w) && !Permitted(S, S.clients[w.client]) && S.clients[w.client].code == r.clientCode;
    }
    assert Ends(S, strict, x) ==> (r.Authenticated? || r.Forbidden?) && !Before(x, w);
  }

  lemma RequiredSearch(S: Search, r: Found)
    requires Answers(S, true, true, r)
    ensures r.Unauthorized? <==> S.targets != [] && forall t :: !Hit(S, t)
    ensures r.Forbidden? <==> exists t :: EndsFirst(S, true, t) && !Permitted(S, S.clients[t.client])
    ensures r.Authenticated? <==> exists t :: EndsFirst(S, true, t) && Permitted(S, S.clients[t.client])
    ensures r.Anonymous? <==> S.targets == []
  {
    forall t
      ensures Hit(S, t) <==> Ends(S, true, t)
      ensures Hit(S, t) ==> S.targets != []
    {
    }
    forall t, u | EndsFirst(S, true, t) && EndsFirst(S, true, u)
      ensures t == u
    {
      EndsFirstIsUnique(S, true, t, u);
    }
  }
}
