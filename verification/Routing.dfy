/**
 Routing: the lookup of configured targets, the choice of a route, and round robin.
 */
module Routing {
  import opened Text
  import opened PathTemplates
  import opened Arithmetic

  datatype Endpoint = Endpoint(name: string, slug: string)
  datatype Service = Service(name: string, endpoints: seq<Endpoint>)
  datatype RouteTarget = RouteTarget(service: string, endpoint: string)
  datatype Resolved = Resolved(service: Service, endpoint: Endpoint)
  datatype Strategy = Single | RoundRobin | Failover | ParallelRace
  datatype Route = Route(slug: string, methods: seq<string>, pattern: Option<seq<Part>>, strategy: Strategy, targets: seq<RouteTarget>)
  datatype Matched = Matched(route: Route, target: Resolved, params: map<string, string>)

  // ---------------------------------------------------------------------------
  // Resolving targets
  // ---------------------------------------------------------------------------

  /** What an endpoint of a service is filed under, later entries replacing earlier ones. */
  function Filed(lookup: map<RouteTarget, Resolved>, service: Service, endpoint: Endpoint): map<RouteTarget, Resolved> {
    lookup[RouteTarget(service.name, endpoint.name) := Resolved(service, endpoint)]
          [RouteTarget(service.name, endpoint.slug) := Resolved(service, endpoint)]
  }

  function FiledAll(lookup: map<RouteTarget, Resolved>, service: Service, n: nat): map<RouteTarget, Resolved>
    requires n <= |service.endpoints|
  {
    if n == 0 then lookup else Filed(FiledAll(lookup, service, n - 1), service, service.endpoints[n - 1])
  }

  function Lookup(services: seq<Service>): map<RouteTarget, Resolved> {
    if services == [] then map[]
    else
      var last := services[|services| - 1];
      FiledAll(Lookup(services[..|services| - 1]), last, |last.endpoints|)
  }

  method EndpointLookup(services: seq<Service>) returns (lookup: map<RouteTarget, Resolved>)
    ensures lookup == Lookup(services)
  {
    lookup := map[];
    for i := 0 to |services|
      invariant lookup == Lookup(services[..i])
    {
      var service := services[i];
      for j := 0 to |service.endpoints|
        invariant lookup == FiledAll(Lookup(services[..i]), service, j)
      {
        var endpoint := service.endpoints[j];
        lookup := lookup[RouteTarget(service.name, endpoint.name) := Resolved(service, endpoint)];
        lookup := lookup[RouteTarget(service.name, endpoint.slug) := Resolved(service, endpoint)];
      }
      assert services[..i + 1][..i] == services[..i];
    }
    assert services[..|services|] == services;
  }

  /** An endpoint of a service, by name or by slug. */
  predicate Names(t: RouteTarget, r: Resolved) {
    r.service.name == t.service && (r.endpoint.name == t.endpoint || r.endpoint.slug == t.endpoint)
  }

  ghost predicate Configured(services: seq<Service>, r: Resolved) {
    r.service in services && r.endpoint in r.service.endpoints
  }

  /** The first n endpoints of a service. */
  function EndpointsOf(service: Service, n: nat): seq<Resolved>
    requires n <= |service.endpoints|
  {
    if n == 0 then [] else EndpointsOf(service, n - 1) + [Resolved(service, service.endpoints[n - 1])]
  }

  /** All configured endpoints in their order. */
  function AllEndpoints(services: seq<Service>): seq<Resolved> {
    if services == [] then []
    else
      var last := services[|services| - 1];
      AllEndpoints(services[..|services| - 1]) + EndpointsOf(last, |last.endpoints|)
  }

  function LastNamed(t: RouteTarget, all: seq<Resolved>): Option<Resolved> {
    if all == [] then None
    else if Names(t, all[|all| - 1]) then Some(all[|all| - 1])
    else LastNamed(t, all[..|all| - 1])
  }

  lemma {:induction false} LastNamedConcat(t: RouteTarget, a: seq<Resolved>, b: seq<Resolved>)
    ensures LastNamed(t, a + b) == if LastNamed(t, b).Some? then LastNamed(t, b) else LastNamed(t, a)
  {
    if b == [] {
      assert a + b == a;
    } else {
      var n := |b| - 1;
      assert (a + b)[..|a + b| - 1] == a + b[..n] && (a + b)[|a + b| - 1] == b[n];
      LastNamedConcat(t, a, b[..n]);
    }
  }

  /** What LastNamed means. */
  lemma {:induction false} LastNamedIsLast(t: RouteTarget, all: seq<Resolved>)
    ensures LastNamed(t, all).None? <==> forall r :: r in all ==> !Names(t, r)
    ensures LastNamed(t, all).Some? ==>
              exists i :: 0 <= i < |all| && all[i] == LastNamed(t, all).value && Names(t, all[i])
                          && forall j :: i < j < |all| ==> !Names(t, all[j])
  {
    if all != [] {
      var front, last := all[..|all| - 1], all[|all| - 1];
      assert all == front + [last];
      LastNamedIsLast(t, front);
      if Names(t, last) {
        assert all[|all| - 1] == LastNamed(t, all).value;
      } else if LastNamed(t, front).Some? {
        var i :| 0 <= i < |front| && front[i] == LastNamed(t, front).value && Names(t, front[i])
                 && forall j :: i < j < |front| ==> !Names(t, front[j]);
        assert all[i] == front[i] && forall j :: i < j < |front| ==> all[j] == front[j];
      }
    }
  }

  function Get(lookup: map<RouteTarget, Resolved>, t: RouteTarget): Option<Resolved> {
    if t in lookup then Some(lookup[t]) else None
  }

  /**
   A target resolves exactly when some configured endpoint goes by that name or slug, and then to the
   last one in the configuration that does.
   */
  lemma {:induction false} LookupTheorem(services: seq<Service>, t: RouteTarget)
    ensures Get(Lookup(services), t) == LastNamed(t, AllEndpoints(services))
    ensures forall r :: r in AllEndpoints(services) <==> Configured(services, r)
  {
    if services != [] {
      var front, last := services[..|services| - 1], services[|services| - 1];
      LookupTheorem(front, t);
      FiledTheorem(Lookup(front), last, |last.endpoints|, t);
      LastNamedConcat(t, AllEndpoints(front), EndpointsOf(last, |last.endpoints|));
      EndpointsAre(last, |last.endpoints|);
      forall r
        ensures r in AllEndpoints(services) <==> Configured(services, r)
      {
        assert services == front + [last];
      }
    }
  }

  lemma {:induction false} EndpointsAre(s: Service, n: nat)
    requires n <= |s.endpoints|
    ensures forall r :: r in EndpointsOf(s, n) <==> r.service == s && r.endpoint in s.endpoints[..n]
  {
    if n > 0 {
      EndpointsAre(s, n - 1);
      assert s.endpoints[..n] == s.endpoints[..n - 1] + [s.endpoints[n - 1]];
    }
  }

  lemma {:induction false} FiledTheorem(lookup: map<RouteTarget, Resolved>, s: Service, n: nat, t: RouteTarget)
    requires n <= |s.endpoints|
    ensures Get(FiledAll(lookup, s, n), t)
            == if LastNamed(t, EndpointsOf(s, n)).Some? then LastNamed(t, EndpointsOf(s, n)) else Get(lookup, t)
  {
    if n > 0 {
      FiledTheorem(lookup, s, n - 1, t);
      var r := Resolved(s, s.endpoints[n - 1]);
      LastNamedConcat(t, EndpointsOf(s, n - 1), [r]);
      assert LastNamed(t, [r]) == if Names(t, r) then Some(r) else None;
      assert Names(t, r) <==> t == RouteTarget(s.name, r.endpoint.name) || t == RouteTarget(s.name, r.endpoint.slug);
    }
  }

  /** Which endpoint of a service a target is filed under last; n when none. */
  lemma {:induction false} LastFiled(lookup: map<RouteTarget, Resolved>, s: Service, n: nat, t: RouteTarget) returns (j: nat)
    requires n <= |s.endpoints|
    ensures j <= n
    ensures forall l :: 0 <= l < n && (j < l || j == n) ==>
              !(s.name == t.service && (s.endpoints[l].name == t.endpoint || s.endpoints[l].slug == t.endpoint))
    ensures var r := FiledAll(lookup, s, n);
            if j < n then
              && s.name == t.service && (s.endpoints[j].name == t.endpoint || s.endpoints[j].slug == t.endpoint)
              && t in r && r[t] == Resolved(s, s.endpoints[j])
            else Get(r, t) == Get(lookup, t)
  {
    j := n;
    if n > 0 {
      var e := s.endpoints[n - 1];
      if s.name == t.service && (e.name == t.endpoint || e.slug == t.endpoint) {
        assert t == RouteTarget(s.name, e.name) || t == RouteTarget(s.name, e.slug);
        j := n - 1;
      } else {
        assert t != RouteTarget(s.name, e.name) && t != RouteTarget(s.name, e.slug);
        j := LastFiled(lookup, s, n - 1, t);
        if j == n - 1 {
          j := n;
        }
      }
    }
  }

  /** A target leads to the last endpoint in the configuration that is its service's and has its name or slug. */
  lemma {:induction false} LookupInFull(services: seq<Service>, t: RouteTarget) returns (i: nat, j: nat)
    ensures t in Lookup(services) ==>
              && i < |services| && j < |services[i].endpoints|
              && services[i].name == t.service
              && (services[i].endpoints[j].name == t.endpoint || services[i].endpoints[j].slug == t.endpoint)
              && Lookup(services)[t] == Resolved(services[i], services[i].endpoints[j])
    ensures forall k, l :: 0 <= k < |services| && 0 <= l < |services[k].endpoints|
                           && (t !in Lookup(services) || k > i || (k == i && l > j)) ==>
              !(services[k].name == t.service
                && (services[k].endpoints[l].name == t.endpoint || services[k].endpoints[l].slug == t.endpoint))
  {
    i, j := 0, 0;
    if services != [] {
      var n := |services| - 1;
      var front, s := services[..n], services[n];
      j := LastFiled(Lookup(front), s, |s.endpoints|, t);
      i := n;
      if j == |s.endpoints| {
        i, j := LookupInFull(front, t);
      }
      assert forall k :: 0 <= k < n ==> services[k] == front[k];
    }
  }

  /** The targets of a route that resolve, in its order. */
  function ResolvedTargets(lookup: map<RouteTarget, Resolved>, targets: seq<RouteTarget>): seq<Resolved> {
    if targets == [] then []
    else
      var front := ResolvedTargets(lookup, targets[..|targets| - 1]);
      var last := targets[|targets| - 1];
      if last in lookup then front + [lookup[last]] else front
  }

  /** `at` says from where in the list each resolved target comes. */
  ghost predicate ComesFrom(lookup: map<RouteTarget, Resolved>, targets: seq<RouteTarget>, r: seq<Resolved>, at: seq<nat>) {
    && |at| == |r|
    && (forall i :: 0 <= i < |at| ==> at[i] < |targets| && targets[at[i]] in lookup)
    && (forall i :: 0 <= i < |at| ==> r[i] == lookup[targets[at[i]]])
    && (forall i, j :: 0 <= i < j < |at| ==> at[i] < at[j])
    && (forall n :: 0 <= n < |targets| && targets[n] in lookup ==> n in at)
  }

  lemma OneMoreTarget(lookup: map<RouteTarget, Resolved>, front: seq<RouteTarget>, t: RouteTarget,
                      r: seq<Resolved>, at: seq<nat>)
    requires ComesFrom(lookup, front, r, at)
    ensures t in lookup ==> ComesFrom(lookup, front + [t], r + [lookup[t]], at + [|front|])
    ensures t !in lookup ==> ComesFrom(lookup, front + [t], r, at)
  {
    var all := front + [t];
    assert forall i :: 0 <= i < |front| ==> all[i] == front[i];
    assert all[|front|] == t;
    assert forall n :: n in at ==> n in at + [|front|];
    assert |front| in at + [|front|];
  }

  lemma {:induction false} FindSources(lookup: map<RouteTarget, Resolved>, targets: seq<RouteTarget>) returns (at: seq<nat>)
    ensures ComesFrom(lookup, targets, ResolvedTargets(lookup, targets), at)
  {
    at := [];
    if targets != [] {
      var n := |targets| - 1;
      var front := FindSources(lookup, targets[..n]);
      OneMoreTarget(lookup, targets[..n], targets[n], ResolvedTargets(lookup, targets[..n]), front);
      at := if targets[n] in lookup then front + [n] else front;
      assert targets == targets[..n] + [targets[n]];
    }
  }

  /**
   The resolved targets are the entries of those targets of the list that have one, all of them, each
   once, in the order of the list: `at` says where each comes from.
   */
  lemma ResolvedTheorem(lookup: map<RouteTarget, Resolved>, targets: seq<RouteTarget>) returns (at: seq<nat>)
    ensures var r := ResolvedTargets(lookup, targets);
            && |at| == |r|
            && (forall i :: 0 <= i < |at| ==> at[i] < |targets| && targets[at[i]] in lookup)
            && (forall i :: 0 <= i < |at| ==> r[i] == lookup[targets[at[i]]])
            && (forall i, j :: 0 <= i < j < |at| ==> at[i] < at[j])
            && (forall n :: 0 <= n < |targets| && targets[n] in lookup ==> n in at)
  {
    at := FindSources(lookup, targets);
  }

  /** The first target that resolves, if one does. */
  lemma FirstResolved(lookup: map<RouteTarget, Resolved>, targets: seq<RouteTarget>)
    ensures ResolvedTargets(lookup, targets) == [] <==> forall n :: 0 <= n < |targets| ==> targets[n] !in lookup
    ensures forall n :: 0 <= n < |targets| && targets[n] in lookup && (forall m :: 0 <= m < n ==> targets[m] !in lookup) ==>
              ResolvedTargets(lookup, targets) != [] && ResolvedTargets(lookup, targets)[0] == lookup[targets[n]]
  {
    var at := ResolvedTheorem(lookup, targets);
    forall n | 0 <= n < |targets| && targets[n] in lookup && (forall m :: 0 <= m < n ==> targets[m] !in lookup)
      ensures at != [] && at[0] == n
    {
      var i :| 0 <= i < |at| && at[i] == n;
      assert at[0] <= at[i];
    }
    if at != [] {
      assert targets[at[0]] in lookup;
    }
  }

  // ---------------------------------------------------------------------------
  // Choosing
  // ---------------------------------------------------------------------------

  predicate Rotates(strategy: Strategy, width: nat) {
    strategy.RoundRobin? && width > 1
  }

  function CounterOf(counters: map<string, nat>, slug: string): nat {
    if slug in counters then counters[slug] else 0
  }

  /** Which of its targets a route selects. */
  function Position(counters: map<string, nat>, slug: string, width: nat): nat
    requires width > 0
  {
    CounterOf(counters, slug) % width
  }

  function Advanced(counters: map<string, nat>, slug: string): map<string, nat> {
    counters[slug := CounterOf(counters, slug) + 1]
  }

  predicate Applies(services: seq<Service>, route: Route, verb: string, path: string) {
    && verb in route.methods
    && route.pattern.Some? && MatchParts(route.pattern.value, path).Some?
    && ResolvedTargets(Lookup(services), route.targets) != []
  }

  class Router {
    var services: seq<Service>
    var routes: seq<Route>
    var roundRobin: map<string, nat>

    /** Loading a configuration restarts every rotation. */
    constructor (services: seq<Service>, routes: seq<Route>)
      ensures this.services == services && this.routes == routes && roundRobin == map[]
    {
      this.services, this.routes, roundRobin := services, routes, map[];
    }

    method RouteTargets(route: Route) returns (targets: seq<Resolved>)
      ensures targets == ResolvedTargets(Lookup(services), route.targets)
    {
      var lookup := EndpointLookup(services);
      targets := [];
      for i := 0 to |route.targets|
        invariant targets == ResolvedTargets(lookup, route.targets[..i])
      {
        assert route.targets[..i + 1][..i] == route.targets[..i];
        if route.targets[i] in lookup {
          targets := targets + [lookup[route.targets[i]]];
        }
      }
      assert route.targets[..|route.targets|] == route.targets;
    }

    method SelectRouteTarget(route: Route) returns (r: Option<Resolved>)
      modifies this`roundRobin
      ensures var targets := ResolvedTargets(Lookup(services), route.targets);
              if targets == [] then r == None && roundRobin == old(roundRobin)
              else if route.strategy.RoundRobin? && |targets| > 1 then
                var counter := if route.slug in old(roundRobin) then old(roundRobin)[route.slug] else 0;
                r == Some(targets[counter % |targets|]) && roundRobin == old(roundRobin)[route.slug := counter + 1]
              else r == Some(targets[0]) && roundRobin == old(roundRobin)
      ensures !route.strategy.RoundRobin? ==>
                var lookup := Lookup(services);
                forall n :: 0 <= n < |route.targets| && route.targets[n] in lookup
                            && (forall m :: 0 <= m < n ==> route.targets[m] !in lookup) ==>
                  r == Some(lookup[route.targets[n]])
    {
      FirstResolved(Lookup(services), route.targets);
      var targets := RouteTargets(route);
      if targets == [] {
        return None;
      }
      if route.strategy != RoundRobin || |targets| == 1 {
        return Some(targets[0]);
      }
      var index := if route.slug in roundRobin then roundRobin[route.slug] else 0;
      roundRobin := roundRobin[route.slug := index + 1];
      return Some(targets[index % |targets|]);
    }

    /** The first route that serves the method, matches the path and has a target; only its rotation moves. */
    method Match(verb: string, path: string) returns (r: Option<Matched>)
      modifies this`roundRobin
      ensures match r
              case None =>
                && (forall i :: 0 <= i < |routes| ==> !Applies(services, routes[i], verb, path))
                && roundRobin == old(roundRobin)
              case Some(matched) =>
                && (exists i :: 0 <= i < |routes| && routes[i] == matched.route && FirstApplies(i, verb, path))
                && Selected(matched, path, old(roundRobin), roundRobin)
      ensures r.Some? ==>
                var route := r.value.route;
                && route in routes && verb in route.methods
                && route.pattern.Some? && MatchParts(route.pattern.value, path).Some?
                && Fits(route.pattern.value, MatchParts(route.pattern.value, path).value)
                && r.value.params == Params(route.pattern.value, MatchParts(route.pattern.value, path).value)
                && r.value.target in ResolvedTargets(Lookup(services), route.targets)
      ensures forall i | 0 <= i < |routes|
                         && verb in routes[i].methods
                         && routes[i].pattern.Some? && MatchParts(routes[i].pattern.value, path).Some?
                         && exists n :: 0 <= n < |routes[i].targets| && routes[i].targets[n] in Lookup(services)
                :: r.Some? && exists j :: 0 <= j <= i && routes[j] == r.value.route
    {
      MatchIsFirst(verb, path);
      for i := 0 to |routes|
        invariant forall j :: 0 <= j < i ==> !Applies(services, routes[j], verb, path)
        invariant roundRobin == old(roundRobin)
      {
        var route := routes[i];
        if verb in route.methods && route.pattern.Some? {
          var caps := MatchParts(route.pattern.value, path);
          if caps.Some? {
            MatchIsSound(route.pattern.value, path);
            var selected := SelectRouteTarget(route);
            if selected.Some? {
              r := Some(Matched(route, selected.value, Params(route.pattern.value, caps.value)));
              assert FirstApplies(i, verb, path);
              return;
            }
          }
        }
      }
      return None;
    }

    /** A route that could serve the request applies. */
    lemma MatchIsFirst(verb: string, path: string)
      ensures forall i | 0 <= i < |routes|
                         && verb in routes[i].methods
                         && routes[i].pattern.Some? && MatchParts(routes[i].pattern.value, path).Some?
                         && exists n :: 0 <= n < |routes[i].targets| && routes[i].targets[n] in Lookup(services)
                :: Applies(services, routes[i], verb, path)
    {
      forall i | 0 <= i < |routes|
        ensures ResolvedTargets(Lookup(services), routes[i].targets) == [] <==>
                  forall n :: 0 <= n < |routes[i].targets| ==> routes[i].targets[n] !in Lookup(services)
      {
        FirstResolved(Lookup(services), routes[i].targets);
      }
    }

    ghost predicate FirstApplies(i: nat, verb: string, path: string)
      requires i < |routes|
      reads this`services, this`routes
    {
      Applies(services, routes[i], verb, path) && forall j :: 0 <= j < i ==> !Applies(services, routes[j], verb, path)
    }

    ghost predicate Selected(matched: Matched, path: string, before: map<string, nat>, after: map<string, nat>)
      reads this`services
    {
      var route := matched.route;
      && route.pattern.Some? && MatchParts(route.pattern.value, path).Some?
      && var caps := MatchParts(route.pattern.value, path).value;
         var targets := ResolvedTargets(Lookup(services), route.targets);
         && Fits(route.pattern.value, caps)
         && matched.params == Params(route.pattern.value, caps)
         && targets != []
         && if Rotates(route.strategy, |targets|) then
              && matched.target == targets[Position(before, route.slug, |targets|)]
              && after == Advanced(before, route.slug)
            else matched.target == targets[0] && after == before
    }
  }

  // ---------------------------------------------------------------------------
  // Fairness
  // ---------------------------------------------------------------------------

  /** The positions that a route of `width` targets selects over a run of selections by any routes. */
  function Chosen(counters: map<string, nat>, calls: seq<string>, slug: string, width: nat): seq<nat>
    requires width > 0
    decreases |calls|
  {
    if calls == [] then []
    else
      (if calls[0] == slug then [Position(counters, slug, width)] else [])
      + Chosen(Advanced(counters, calls[0]), calls[1..], slug, width)
  }

  function Occurrences(s: seq<nat>, p: nat): nat {
    if s == [] then 0 else (if s[0] == p then 1 else 0) + Occurrences(s[1..], p)
  }

  /** n consecutive positions of a rotation. */
  function Cycle(start: nat, n: nat, width: nat): seq<nat>
    requires width > 0
    decreases n
  {
    if n == 0 then [] else [start % width] + Cycle(start + 1, n - 1, width)
  }

  /** Whatever other routes do in between, a route goes round and round. */
  lemma {:induction false} ChosenIsCycle(counters: map<string, nat>, calls: seq<string>, slug: string, width: nat)
    requires width > 0
    ensures var chosen := Chosen(counters, calls, slug, width);
            chosen == Cycle(CounterOf(counters, slug), |chosen|, width)
    decreases |calls|
  {
    if calls != [] {
      ChosenIsCycle(Advanced(counters, calls[0]), calls[1..], slug, width);
    }
  }

  lemma {:induction false} CycleSplits(start: nat, m: nat, n: nat, width: nat, p: nat)
    requires width > 0
    ensures Occurrences(Cycle(start, m + n, width), p)
            == Occurrences(Cycle(start, m, width), p) + Occurrences(Cycle(start + m, n, width), p)
    decreases m
  {
    if m > 0 {
      CycleSplits(start + 1, m - 1, n, width, p);
    }
  }

  /** Moving a full turn by one changes nothing, so every turn visits every position once. */
  lemma {:induction false} OneTurn(start: nat, width: nat, p: nat)
    requires p < width
    ensures Occurrences(Cycle(start, width, width), p) == 1
  {
    if start == 0 {
      FirstTurn(0, width, width, p);
    } else {
      OneTurn(start - 1, width, p);
      CycleSplits(start - 1, 1, width - 1, width, p);
      CycleSplits(start, width - 1, 1, width, p);
      OneMore(start - 1, width);
      assert Cycle(start - 1, 1, width) == [(start - 1) % width] + Cycle(start, 0, width);
      assert Cycle(start + (width - 1), 1, width) == [(start - 1) % width] + Cycle(start + width, 0, width);
    }
  }

  lemma {:induction false} FirstTurn(from: nat, n: nat, width: nat, p: nat)
    requires from + n == width && p < width
    ensures Occurrences(Cycle(from, n, width), p) == if from <= p then 1 else 0
    decreases n
  {
    if n > 0 {
      FirstTurn(from + 1, n - 1, width, p);
      QuotientIs(from, width, 0, from);
    }
  }

  /** Less than a turn visits a position at most once. */
  lemma PartTurn(start: nat, n: nat, width: nat, p: nat)
    requires p < width && n <= width
    ensures Occurrences(Cycle(start, n, width), p) <= 1
  {
    CycleSplits(start, n, width - n, width, p);
    OneTurn(start, width, p);
  }

  lemma {:induction false} CycleIsFair(start: nat, n: nat, width: nat, p: nat)
    requires p < width
    ensures n / width <= Occurrences(Cycle(start, n, width), p) <= (n + width - 1) / width
    decreases n
  {
    if n < width {
      PartTurn(start, n, width, p);
      QuotientIs(n, width, 0, n);
      if n > 0 {
        QuotientIs(n + width - 1, width, 1, n - 1);
      }
    } else {
      CycleSplits(start, width, n - width, width, p);
      OneTurn(start, width, p);
      CycleIsFair(start + width, n - width, width, p);
      OneMore(n - width, width);
      OneMore(n - 1, width);
    }
  }

  /**
   Over any run of selections, interleaved with other routes in any way and starting from any state,
   N selections of a route visit each of its targets N/width times, rounded down or up.
   */
  lemma RoundRobinTheorem(counters: map<string, nat>, calls: seq<string>, slug: string, width: nat, p: nat)
    requires p < width
    ensures var chosen := Chosen(counters, calls, slug, width);
            |chosen| / width <= Occurrences(chosen, p) <= (|chosen| + width - 1) / width
  {
    ChosenIsCycle(counters, calls, slug, width);
    CycleIsFair(CounterOf(counters, slug), |Chosen(counters, calls, slug, width)|, width, p);
  }
}
