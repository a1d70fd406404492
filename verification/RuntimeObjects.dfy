/**
 The objects behind the coalescing protocol: mutable responses, in-flight entries, the memory cache
 and the registry. Each method performs one atomic step of the transition system on them, and no
 response the gateway holds on to is ever an object it hands out.
 */
module RuntimeObjects {
  import opened Text
  import opened Responses
  import opened Coalescing
  import opened CoalescingSafety
  import opened CoalescingCache
  import opened CoalescingServed

  class OutgoingResponse {
    var statusCode: int
    var headers: Headers
    var body: string
    var streaming: bool

    ghost function Value(): Response
      reads this
    {
      Response(statusCode, headers, body, streaming)
    }

    constructor (statusCode: int, headers: Headers, body: string, streaming: bool)
      ensures Value() == Response(statusCode, headers, body, streaming)
    {
      this.statusCode, this.headers, this.body, this.streaming := statusCode, headers, body, streaming;
    }
  }

  class InFlightRequest {
    ghost const owner: RequestId   // the request that created it
    var event: bool
    var result: OutgoingResponse?
    var error: Option<Failure>
    var waiterCount: nat

    constructor (ghost owner: RequestId)
      ensures this.owner == owner && !event && result == null && error == None && waiterCount == 0
    {
      this.owner := owner;
      event, result, error, waiterCount := false, null, None, 0;
    }
  }

  method HitFor(stored: OutgoingResponse, requestId: string) returns (r: OutgoingResponse)
    ensures fresh(r) && r.Value() == HitCopy(stored.Value(), requestId)
  {
    var headers := MergeResponseHeaders(stored.headers, HitMarks(requestId));
    r := new OutgoingResponse(stored.statusCode, headers, stored.body, false);
  }

  method StoredFrom(response: OutgoingResponse) returns (r: OutgoingResponse)
    ensures fresh(r) && r.Value() == StoredCopy(response.Value())
  {
    var headers := DropHeaders(response.headers, OWN_NAMES);
    r := new OutgoingResponse(response.statusCode, headers, response.body, false);
  }

  method DropHeaders(headers: Headers, names: set<string>) returns (kept: Headers)
    ensures kept == Without(headers, names)
  {
    kept := [];
    for n := 0 to |headers|
      invariant kept == Without(headers[..n], names)
    {
      assert headers[..n + 1] == headers[..n] + [headers[n]];
      WithoutConcat(headers[..n], [headers[n]], names);
      if Lower(headers[n].name) !in names {
        kept := kept + [headers[n]];
      }
    }
    assert headers[..|headers|] == headers;
  }

  method CloneFor(snapshot: OutgoingResponse, requestId: string) returns (r: OutgoingResponse)
    ensures fresh(r) && r.Value() == CoalescedCopy(snapshot.Value(), requestId)
  {
    var headers := DropHeaders(snapshot.headers, {"x-request-id"});
    headers := MergeResponseHeaders(headers, CoalescedMarks(requestId));
    r := new OutgoingResponse(snapshot.statusCode, headers, snapshot.body, false);
  }

  method RaisedFor(error: Failure, requestId: string) returns (f: Failure)
    ensures f == CoalescedFailure(error, requestId)
  {
    match error
    case GatewayFailure(status, detail, headers) =>
      var merged := MergeResponseHeaders(headers, CoalescedMarks(requestId));
      f := GatewayFailure(status, detail, merged);
    case TransportFailure(_) => f := GatewayFailure(502, "Upstream request failed.", CoalescedMarks(requestId));
    case InternalFailure(_) => f := GatewayFailure(500, "Gateway internal error.", CoalescedMarks(requestId));
    case Interrupt(_) => f := error;
  }

  datatype CacheEntry = CacheEntry(expiry: real, response: OutgoingResponse)

  class MemoryCacheBackend {
    var store: map<string, CacheEntry>

    constructor ()
      ensures store == map[]
    {
      store := map[];
    }

    method Lookup(key: string, now: real) returns (r: OutgoingResponse?)
      ensures r != null <==> key in store && now < store[key].expiry
      ensures r != null ==> r == store[key].response
    {
      if key !in store || store[key].expiry <= now {
        return null;
      }
      return store[key].response;
    }

    method Set(key: string, response: OutgoingResponse, now: real, ttl: real)
      modifies this
      ensures store == old(store)[key := CacheEntry(now + ttl, response)]
    {
      store := store[key := CacheEntry(now + ttl, response)];
    }

    method Clear() returns (count: nat)
      modifies this
      ensures store == map[] && count == |old(store)|
    {
      count := |store|;
      store := map[];
    }
  }

  /** How a route execution ended, with the response object it produced. */
  datatype Attempt = Returned(response: OutgoingResponse) | Raised(failure: Failure)

  /** What a target gives: a response, or an error. */
  datatype Produced = Answer(response: Response) | Error(failure: Failure)

  /** What a request makes of the slots of an entry: a response to send, or an error to raise. */
  datatype Reading = Serves(response: Response) | Raises(failure: Failure)

  /** The registry part of a state of the transition system. */
  datatype Registry = Registry(inflight: map<Key, RequestId>, entries: map<RequestId, InFlight>)

  function RegistryOf(s: State): Registry {
    Registry(s.inflight, s.entries)
  }

  /** What a reply looks like, as its producer holds it. */
  type Rendering = Reply -> Response

  /** A rendering shows a target's own response as it is; what the cache renders is never a stream. */
  ghost predicate Plain(render: Rendering) {
    forall reply: Reply :: if reply.Fresh? then render(reply) == reply.response else !render(reply).streaming
  }

  /** Hits of request r are rendered with its request id. */
  ghost predicate RendersHits(render: Rendering, r: RequestId, requestId: string) {
    forall original :: render(Hit(original, r)) == HitCopy(StoredCopy(original), requestId)
  }

  /** The error first, then the missing response, then a clone of the response. */
  function ReadOf(render: Rendering, e: InFlight, requestId: string): Reading {
    match e
    case InFlight(_, _, Some(error), _) => Raises(CoalescedFailure(error, requestId))
    case InFlight(_, None, None, _) => Raises(EmptyError(requestId))
    case InFlight(_, Some(reply), None, _) => Serves(CoalescedCopy(render(reply), requestId))
  }

  function OutcomeOf(produced: Produced): Outcome {
    match produced
    case Answer(response) => Replied(Fresh(response))
    case Error(failure) => Failed(failure)
  }

  function WithCors(r: Response, cors: Headers): Response {
    r.(headers := Merge(r.headers, cors))
  }

  /** What is published of an outcome, and what a leader sends of it. */
  lemma RenderedAsIs(render: Rendering, o: Outcome, leader: RequestId, requestId: string)
    requires Plain(render) && RendersHits(render, leader, requestId)
    ensures o.Replied? && o.reply.Hit? && o.reply.requester == leader ==>
              Snapshot(o) == o && render(o.reply) == HitCopy(StoredCopy(o.reply.original), requestId)
    ensures o.Replied? && o.reply.Fresh? ==> render(o.reply) == o.reply.response
    ensures o.Replied? && o.reply.Fresh? && o.reply.response.streaming ==>
              Snapshot(o) == Failed(InternalFailure("Streaming responses cannot be coalesced."))
    ensures o.Replied? && o.reply.Fresh? && !o.reply.response.streaming ==> Snapshot(o) == o
    ensures o.Failed? ==> Snapshot(o) == o
  {
  }

  class GatewayRuntime {
    const cache: MemoryCacheBackend
    var inflight: map<Key, InFlightRequest>

    ghost var entries: map<RequestId, InFlightRequest>       // every entry ever registered, by its leader
    ghost var registered: set<InFlightRequest>               // the same entries, as a set
    ghost var held: map<OutgoingResponse, Response>          // responses in the cache or published by a leader
    ghost var served: set<OutgoingResponse>                  // responses handed to requests

    constructor (ghost render: Rendering)
      ensures fresh(cache) && held == map[] && served == {}
      ensures CacheMatches(map[]) && RegistryMatches(render, Registry(map[], map[]))
    {
      cache := new MemoryCacheBackend();
      inflight, entries, registered, held, served := map[], map[], {}, map[], {};
    }

    /** The cache holds copies of the originals in `slots`. */
    ghost predicate CacheMatches(slots: map<string, Slot>)
      reads this`held, cache
    {
      && cache.store.Keys == slots.Keys
      && (forall ck :: ck in cache.store ==> SlotMatches(cache.store[ck], slots[ck]))
    }

    ghost predicate SlotMatches(e: CacheEntry, slot: Slot)
      reads this`held
    {
      && e.expiry == slot.expiry
      && e.response in held
      && held[e.response] == StoredCopy(slot.original)
    }

    ghost predicate RegistryMatches(render: Rendering, g: Registry)
      reads this`held, this`inflight, this`entries, this`registered, registered
    {
      && entries.Keys == g.entries.Keys
      && (forall l :: l in entries ==>
            && entries[l] in registered && entries[l].owner == l
            && EntryMatches(render, entries[l], g.entries[l]))
      && inflight.Keys == g.inflight.Keys
      && (forall k :: k in inflight ==> g.inflight[k] in entries && inflight[k] == entries[g.inflight[k]])
    }

    ghost predicate EntryMatches(render: Rendering, e: InFlightRequest, x: InFlight)
      reads this`held, e
    {
      && e.event == x.event
      && e.waiterCount == x.waiters
      && e.error == x.error
      && (e.result == null <==> x.result == None)
      && (e.result != null ==> e.result in held && held[e.result] == render(x.result.value))
    }

    /** Nothing the gateway holds on to has been handed out, and all of it is as it was when it was put there. */
    ghost predicate Isolated()
      reads this`held, this`served, held.Keys
    {
      held.Keys !! served && forall o :: o in held ==> o.Value() == held[o]
    }

    /** Serves from the cache, in an object of its own. */
    method GetCachedResponse(ghost slots: map<string, Slot>, key: string, now: real, requestId: string)
      returns (r: OutgoingResponse?)
      requires CacheMatches(slots) && Isolated()
      modifies this`served
      ensures Isolated() && served == old(served) + (if r == null then {} else {r})
      ensures r != null <==> Live(Find(slots, key), now)
      ensures r != null ==> fresh(r) && r.Value() == HitCopy(StoredCopy(slots[key].original), requestId)
    {
      var hit := cache.Lookup(key, now);
      if hit == null {
        return null;
      }
      assert SlotMatches(cache.store[key], slots[key]);
      r := HitFor(hit, requestId);
      served := served + {r};
    }

    /** Starts to hold a response: whatever was held stays as it was. */
    ghost method Hold(render: Rendering, g: Registry, slots: map<string, Slot>, o: OutgoingResponse)
      requires CacheMatches(slots) && RegistryMatches(render, g) && Isolated()
      requires o !in held && o !in served
      modifies this`held
      ensures held == old(held)[o := o.Value()]
      ensures CacheMatches(slots) && RegistryMatches(render, g) && Isolated()
    {
      held := held[o := o.Value()];
      assert forall ck :: ck in cache.store ==> SlotMatches(cache.store[ck], slots[ck]) by {
        assert forall ck :: ck in cache.store ==> old(SlotMatches(cache.store[ck], slots[ck]));
      }
    }

    /** Stores a copy of a success. */
    method StoreCachedResponse(ghost render: Rendering, ghost g: Registry, ghost slots: map<string, Slot>,
                               key: string, response: OutgoingResponse, now: real, ttl: real)
      requires CacheMatches(slots) && RegistryMatches(render, g) && Isolated()
      modifies this`held, cache
      ensures Isolated() && RegistryMatches(render, g)
      ensures CacheMatches(if response.statusCode < 400 then slots[key := Slot(now + ttl, response.Value())] else slots)
    {
      if response.statusCode >= 400 {
        return;
      }
      var stored := StoredFrom(response);
      Hold(render, g, slots, stored);
      SetSlot(slots, key, stored, response.Value(), now, ttl);
    }

    method SetSlot(ghost slots: map<string, Slot>, key: string, stored: OutgoingResponse, ghost original: Response,
                   now: real, ttl: real)
      requires CacheMatches(slots) && stored in held && held[stored] == StoredCopy(original)
      modifies cache
      ensures CacheMatches(slots[key := Slot(now + ttl, original)])
    {
      cache.Set(key, stored, now, ttl);
    }

    method ClearCache(ghost slots: map<string, Slot>) returns (count: nat)
      requires CacheMatches(slots)
      modifies cache
      ensures CacheMatches(map[]) && count == |slots|
    {
      assert |cache.store| == |cache.store.Keys| == |slots.Keys| == |slots|;
      count := cache.Clear();
    }

    /** The critical section of registration: finds the entry of a key or creates it. */
    method Register(ghost render: Rendering, ghost g: Registry, ghost r: RequestId, key: Key)
      returns (entry: InFlightRequest, isLeader: bool)
      requires RegistryMatches(render, g) && Closed(g) && r !in g.entries
      modifies this`inflight, this`entries, this`registered, registered
      ensures isLeader <==> key !in g.inflight
      ensures isLeader ==> fresh(entry) && entry.owner == r
      ensures !isLeader ==>
                && old(key in inflight) && entry == old(inflight[key]) && entry.owner == g.inflight[key]
                && entry.waiterCount == old(inflight[key].waiterCount) + 1
      ensures RegistryMatches(render, Entered(g, key, r))
    {
      isLeader := key !in inflight;
      if isLeader {
        entry := Create(render, g, r, key);
      } else {
        entry := inflight[key];
        Count(render, g, entry);
      }
    }

    method Create(ghost render: Rendering, ghost g: Registry, ghost r: RequestId, key: Key)
      returns (entry: InFlightRequest)
      requires RegistryMatches(render, g) && r !in g.entries && key !in g.inflight
      modifies this`inflight, this`entries, this`registered
      ensures fresh(entry) && entry.owner == r
      ensures RegistryMatches(render, Registry(g.inflight[key := r], g.entries[r := FRESH]))
    {
      entry := new InFlightRequest(r);
      inflight := inflight[key := entry];
      entries, registered := entries[r := entry], registered + {entry};
    }

    method Count(ghost render: Rendering, ghost g: Registry, entry: InFlightRequest)
      requires RegistryMatches(render, g) && Knows(entry)
      modifies entry`waiterCount
      ensures entry.waiterCount == old(entry.waiterCount) + 1
      ensures RegistryMatches(render, Waited(g, entry.owner))
    {
      entry.waiterCount := entry.waiterCount + 1;
      forall l | l in entries
        ensures EntryMatches(render, entries[l], Waited(g, entry.owner).entries[l])
      {
        assert old(EntryMatches(render, entries[l], g.entries[l]));
      }
    }

    ghost predicate Knows(entry: InFlightRequest)
      reads this`entries
    {
      entry.owner in entries && entries[entry.owner] == entry
    }

    /** The attempt's response, one of those that go out, is what the outcome says; or the error is. */
    ghost predicate Produces(render: Rendering, attempt: Attempt, outcome: Outcome)
      reads this`served, if attempt.Returned? then {attempt.response} else {}
    {
      match attempt
      case Returned(r) => r in served && outcome.Replied? && render(outcome.reply) == r.Value()
      case Raised(failure) => outcome == Failed(failure)
    }

    /** The answer is the snapshot's reply with the CORS headers, or its error. */
    ghost predicate Sends(render: Rendering, answer: Attempt, outcome: Outcome, cors: Headers)
      reads this`served, if answer.Returned? then {answer.response} else {}
    {
      match answer
      case Returned(r) =>
        r in served && Snapshot(outcome).Replied? && r.Value() == WithCors(render(outcome.reply), cors)
      case Raised(failure) => Snapshot(outcome) == Failed(failure)
    }

    /** The leader fills one slot of its entry: a copy of its response, or the error it raises. */
    method Publish(ghost render: Rendering, ghost g: Registry, ghost slots: map<string, Slot>, entry: InFlightRequest,
                   attempt: Attempt, ghost outcome: Outcome)
      returns (raised: Option<Failure>)
      requires CacheMatches(slots) && RegistryMatches(render, g) && Knows(entry) && Isolated() && Plain(render)
      requires Produces(render, attempt, outcome)
      modifies this`held, entry`result, entry`error
      ensures Isolated() && CacheMatches(slots)
      ensures RegistryMatches(render, Written(g, entry.owner, Snapshot(outcome)))
      ensures raised == if Snapshot(outcome).Failed? then Some(Snapshot(outcome).failure) else None
      ensures attempt.Returned? && !attempt.response.streaming ==>
                && entry.error == old(entry.error) && entry.result != null && fresh(entry.result)
                && entry.result.Value() == attempt.response.Value()
      ensures attempt.Returned? && attempt.response.streaming ==>
                entry.result == old(entry.result)
                && entry.error == Some(InternalFailure("Streaming responses cannot be coalesced."))
      ensures attempt.Raised? ==> entry.result == old(entry.result) && entry.error == Some(attempt.failure)
    {
      match attempt
      case Returned(response) =>
        if response.streaming {
          raised := Some(STREAMING_ERROR);
          FillError(render, g, entry, STREAMING_ERROR);
        } else {
          raised := None;
          PublishSnapshot(render, g, slots, entry, response, outcome.reply);
        }
      case Raised(failure) =>
        raised := Some(failure);
        FillError(render, g, entry, failure);
    }

    method PublishSnapshot(ghost render: Rendering, ghost g: Registry, ghost slots: map<string, Slot>,
                           entry: InFlightRequest, response: OutgoingResponse, ghost reply: Reply)
      requires CacheMatches(slots) && RegistryMatches(render, g) && Knows(entry) && Isolated()
      requires !response.streaming && response.Value() == render(reply)
      modifies this`held, entry`result
      ensures Isolated() && CacheMatches(slots)
      ensures RegistryMatches(render, Written(g, entry.owner, Replied(reply)))
      ensures entry.result != null && fresh(entry.result) && entry.result.Value() == old(response.Value())
    {
      var snapshot := new OutgoingResponse(response.statusCode, response.headers, response.body, false);
      Hold(render, g, slots, snapshot);
      FillResult(render, g, entry, snapshot, reply);
    }

    method FillError(ghost render: Rendering, ghost g: Registry, entry: InFlightRequest, failure: Failure)
      requires RegistryMatches(render, g) && Knows(entry)
      modifies entry`error
      ensures entry.error == Some(failure)
      ensures RegistryMatches(render, Written(g, entry.owner, Failed(failure)))
    {
      entry.error := Some(failure);
      forall l | l in entries
        ensures EntryMatches(render, entries[l], Written(g, entry.owner, Failed(failure)).entries[l])
      {
        assert old(EntryMatches(render, entries[l], g.entries[l]));
      }
    }

    method FillResult(ghost render: Rendering, ghost g: Registry, entry: InFlightRequest,
                      snapshot: OutgoingResponse, ghost reply: Reply)
      requires RegistryMatches(render, g) && Knows(entry)
      requires snapshot in held && held[snapshot] == render(reply)
      modifies entry`result
      ensures entry.result == snapshot
      ensures RegistryMatches(render, Written(g, entry.owner, Replied(reply)))
    {
      entry.result := snapshot;
      forall l | l in entries
        ensures EntryMatches(render, entries[l], Written(g, entry.owner, Replied(reply)).entries[l])
      {
        assert old(EntryMatches(render, entries[l], g.entries[l]));
      }
    }

    method Signal(ghost render: Rendering, ghost g: Registry, entry: InFlightRequest)
      requires RegistryMatches(render, g) && Knows(entry)
      modifies entry`event
      ensures entry.event && RegistryMatches(render, Signalled(g, entry.owner))
    {
      entry.event := true;
      forall l | l in entries
        ensures EntryMatches(render, entries[l], Signalled(g, entry.owner).entries[l])
      {
        assert old(EntryMatches(render, entries[l], g.entries[l]));
      }
    }

    /** The critical section of removal: only an entry that is still registered is removed. */
    method Remove(ghost render: Rendering, ghost g: Registry, key: Key, entry: InFlightRequest)
      requires RegistryMatches(render, g) && Knows(entry)
      modifies this`inflight
      ensures key in inflight <==> key in old(inflight) && old(inflight[key]) != entry
      ensures inflight == old(inflight) || inflight == old(inflight) - {key}
      ensures RegistryMatches(render, Left(g, key, entry.owner))
    {
      if key in inflight && inflight[key] == entry {
        inflight := inflight - {key};
      }
    }

    /** What a request makes of the slots of the entry it waited on. */
    method ReadSlots(ghost render: Rendering, ghost g: Registry, entry: InFlightRequest, requestId: string)
      returns (answer: Attempt)
      requires RegistryMatches(render, g) && Knows(entry) && Isolated() && entry.event
      modifies this`served
      ensures Isolated() && served == old(served) + (if answer.Returned? then {answer.response} else {})
      ensures match answer
              case Returned(r) => fresh(r) && ReadOf(render, g.entries[entry.owner], requestId) == Serves(r.Value())
              case Raised(failure) => ReadOf(render, g.entries[entry.owner], requestId) == Raises(failure)
    {
      if entry.error.Some? {
        var f := RaisedFor(entry.error.value, requestId);
        return Raised(f);
      }
      if entry.result == null {
        return Raised(EmptyError(requestId));
      }
      var r := CloneFor(entry.result, requestId);
      served := served + {r};
      return Returned(r);
    }

    /** Merges the CORS headers into a response that is about to be sent: no other response changes. */
    method AddCorsHeaders(response: OutgoingResponse, cors: Headers)
      requires Isolated() && response in served
      modifies response`headers
      ensures response.Value() == old(response.Value()).(headers := Merge(old(response.headers), cors))
      ensures Isolated()
      ensures forall o :: o in served && o != response ==> o.Value() == old(o.Value())
    {
      response.headers := MergeResponseHeaders(response.headers, cors);
    }

    /** A target's response arrives in an object of its own, which goes out to the requester. */
    method Receive(ghost render: Rendering, ghost g: Registry, ghost slots: map<string, Slot>, response: Response)
      returns (r: OutgoingResponse)
      requires CacheMatches(slots) && RegistryMatches(render, g) && Isolated()
      modifies this`served
      ensures fresh(r) && r.Value() == response && served == old(served) + {r}
      ensures CacheMatches(slots) && RegistryMatches(render, g) && Isolated()
    {
      r := new OutgoingResponse(response.status, response.headers, response.body, response.streaming);
      served := served + {r};
    }

    /** A target's response goes out, and is stored when caching applies and it is no stream. */
    method ReceiveAndStore(ghost render: Rendering, ghost g: Registry, ghost slots: map<string, Slot>, ck: Option<string>,
                           response: Response, now: real, ttl: real)
      returns (r: OutgoingResponse)
      requires CacheMatches(slots) && RegistryMatches(render, g) && Isolated()
      modifies this`served, this`held, cache
      ensures Isolated() && RegistryMatches(render, g)
      ensures CacheMatches(if ck.Some? && response.status < 400 && !response.streaming
                           then slots[ck.value := Slot(now + ttl, response)] else slots)
      ensures fresh(r) && r in served && r.Value() == response
    {
      r := Receive(render, g, slots, response);
      if ck.Some? && !r.streaming {
        StoreCachedResponse(render, g, slots, ck.value, r, now, ttl);
      }
    }

    /** The route is executed; `after` is what the cache holds then. */
    method Execute(ghost render: Rendering, ghost g: Registry, ghost slots: map<string, Slot>, ck: Option<string>,
                   produced: Produced, now: real, ttl: real)
      returns (attempt: Attempt, ghost after: map<string, Slot>)
      requires CacheMatches(slots) && RegistryMatches(render, g) && Isolated()
      modifies this`served, this`held, cache
      ensures Isolated() && RegistryMatches(render, g) && CacheMatches(after)
      ensures if produced.Answer? && ck.Some? && produced.response.status < 400 && !produced.response.streaming
              then after == slots[ck.value := Slot(now + ttl, produced.response)]
              else after == slots
      ensures match attempt
              case Returned(r) => fresh(r) && r in served && produced == Answer(r.Value())
              case Raised(failure) => produced == Error(failure)
    {
      after := slots;
      match produced
      case Answer(response) =>
        if ck.Some? && response.status < 400 && !response.streaming {
          after := slots[ck.value := Slot(now + ttl, response)];
        }
        var r := ReceiveAndStore(render, g, slots, ck, response, now, ttl);
        attempt := Returned(r);
      case Error(failure) => attempt := Raised(failure);
    }

    /** The end of a call: whoever waits is woken, and the key is freed. */
    method Finish(ghost render: Rendering, ghost g: Registry, ghost slots: map<string, Slot>, key: Key,
                  entry: InFlightRequest)
      requires CacheMatches(slots) && RegistryMatches(render, g) && Knows(entry) && Isolated()
      modifies this`inflight, entry`event
      ensures Isolated() && CacheMatches(slots)
      ensures RegistryMatches(render, Left(Signalled(g, entry.owner), key, entry.owner))
    {
      Signal(render, g, entry);
      assert Isolated() && CacheMatches(slots);
      Remove(render, Signalled(g, entry.owner), key, entry);
    }

    /** The entry gets the outcome, then the event, and then the key is freed. */
    method Settle(ghost render: Rendering, ghost g: Registry, ghost slots: map<string, Slot>, key: Key,
                  entry: InFlightRequest, attempt: Attempt, ghost outcome: Outcome)
      returns (raised: Option<Failure>)
      requires CacheMatches(slots) && RegistryMatches(render, g) && Knows(entry) && Isolated() && Plain(render)
      requires Produces(render, attempt, outcome)
      modifies this`held, this`inflight, entry
      ensures Isolated() && CacheMatches(slots)
      ensures RegistryMatches(render, Settled(g, key, entry.owner, outcome))
      ensures raised == if Snapshot(outcome).Failed? then Some(Snapshot(outcome).failure) else None
    {
      raised := Publish(render, g, slots, entry, attempt, outcome);
      Finish(render, Written(g, entry.owner, Snapshot(outcome)), slots, key, entry);
    }

    /** An execution is settled and its response sent with the CORS headers. */
    method Respond(ghost render: Rendering, ghost g: Registry, ghost slots: map<string, Slot>, key: Key,
                   entry: InFlightRequest, response: OutgoingResponse, ghost outcome: Outcome, cors: Headers)
      returns (answer: Attempt)
      requires CacheMatches(slots) && RegistryMatches(render, g) && Knows(entry) && Isolated() && Plain(render)
      requires Produces(render, Returned(response), outcome)
      modifies this`held, this`inflight, entry, response`headers
      ensures Isolated() && CacheMatches(slots)
      ensures RegistryMatches(render, Settled(g, key, entry.owner, outcome))
      ensures Sends(render, answer, outcome, cors) && (answer.Returned? ==> answer.response == response)
    {
      var raised := Settle(render, g, slots, key, entry, Returned(response), outcome);
      if raised.Some? {
        return Raised(raised.value);
      }
      AddCorsHeaders(response, cors);
      answer := Returned(response);
    }

    /** The second lookup, when caching applies. */
    method LookAgain(ghost render: Rendering, ghost g: Registry, ghost slots: map<string, Slot>, ck: Option<string>,
                     now: real, requestId: string)
      returns (r: OutgoingResponse?)
      requires CacheMatches(slots) && RegistryMatches(render, g) && Isolated()
      modifies this`served
      ensures CacheMatches(slots) && RegistryMatches(render, g) && Isolated()
      ensures r != null <==> ck.Some? && Live(Find(slots, ck.value), now)
      ensures r != null ==>
                fresh(r) && r in served && r.Value() == HitCopy(StoredCopy(slots[ck.value].original), requestId)
    {
      r := null;
      if ck.Some? {
        r := GetCachedResponse(slots, ck.value, now, requestId);
      }
    }

    /** The second lookup, and the execution when it finds nothing. */
    method LookAgainOrExecute(ghost render: Rendering, ghost g: Registry, ghost slots: map<string, Slot>,
                              ck: Option<string>, now: real, produced: Produced, storedAt: real, ttl: real,
                              ghost leader: RequestId, requestId: string)
      returns (attempt: Attempt, ghost outcome: Outcome, ghost after: map<string, Slot>)
      requires CacheMatches(slots) && RegistryMatches(render, g) && Isolated() && Plain(render)
      requires RendersHits(render, leader, requestId)
      modifies this`served, this`held, cache
      ensures Isolated() && RegistryMatches(render, g) && CacheMatches(after)
      ensures Produces(render, attempt, outcome) && (attempt.Returned? ==> fresh(attempt.response))
      ensures ck.Some? && ck.value in slots && now < slots[ck.value].expiry ==>
                outcome == Replied(Hit(slots[ck.value].original, leader)) && after == slots
      ensures !(ck.Some? && ck.value in slots && now < slots[ck.value].expiry) ==>
                && outcome == OutcomeOf(produced)
                && if produced.Answer? && ck.Some? && produced.response.status < 400 && !produced.response.streaming
                   then after == slots[ck.value := Slot(storedAt + ttl, produced.response)]
                   else after == slots
    {
      var hit := LookAgain(render, g, slots, ck, now, requestId);
      if hit != null {
        attempt, outcome, after := Returned(hit), Replied(Hit(slots[ck.value].original, leader)), slots;
      } else {
        outcome := OutcomeOf(produced);
        attempt, after := Execute(render, g, slots, ck, produced, storedAt, ttl);
      }
    }

    /** The attempt, its settling and the response to it. */
    method AttemptAndRespond(ghost render: Rendering, ghost g: Registry, ghost slots: map<string, Slot>, key: Key,
                             entry: InFlightRequest, ck: Option<string>, now: real, produced: Produced, storedAt: real,
                             ttl: real, requestId: string, cors: Headers)
      returns (answer: Attempt, ghost outcome: Outcome, ghost after: map<string, Slot>)
      requires CacheMatches(slots) && RegistryMatches(render, g) && Knows(entry) && Isolated() && Plain(render)
      requires RendersHits(render, entry.owner, requestId)
      modifies this`served, this`held, this`inflight, cache, entry
      ensures Isolated() && CacheMatches(after) && RegistryMatches(render, Settled(g, key, entry.owner, outcome))
      ensures Sends(render, answer, outcome, cors) && (answer.Returned? ==> fresh(answer.response))
      ensures ck.Some? && ck.value in slots && now < slots[ck.value].expiry ==>
                outcome == Replied(Hit(slots[ck.value].original, entry.owner)) && after == slots
      ensures !(ck.Some? && ck.value in slots && now < slots[ck.value].expiry) ==>
                && outcome == OutcomeOf(produced)
                && if produced.Answer? && ck.Some? && produced.response.status < 400 && !produced.response.streaming
                   then after == slots[ck.value := Slot(storedAt + ttl, produced.response)]
                   else after == slots
    {
      var attempt: Attempt;
      attempt, outcome, after :=
        LookAgainOrExecute(render, g, slots, ck, now, produced, storedAt, ttl, entry.owner, requestId);
      if attempt.Raised? {
        var _ := Settle(render, g, after, key, entry, attempt, outcome);
        answer := attempt;
      } else {
        answer := Respond(render, g, after, key, entry, attempt.response, outcome, cors);
      }
    }

    /**
     The whole path of a leader, from the second lookup to the response that is sent: the entry holds the
     outcome and is signalled, the key is free, the cache has the success, and the CORS headers are in
     the leader's own response only.
     */
    method Lead(ghost render: Rendering, ghost g: Registry, ghost slots: map<string, Slot>, key: Key,
                entry: InFlightRequest, ck: Option<string>, now: real, produced: Produced, storedAt: real, ttl: real,
                requestId: string, cors: Headers)
      returns (answer: Attempt, ghost outcome: Outcome, ghost after: map<string, Slot>)
      requires CacheMatches(slots) && RegistryMatches(render, g) && Knows(entry) && Isolated() && Plain(render)
      requires RendersHits(render, entry.owner, requestId)
      modifies this`served, this`held, this`inflight, cache, entry
      ensures Isolated() && CacheMatches(after) && RegistryMatches(render, Settled(g, key, entry.owner, outcome))
      ensures answer.Returned? ==> fresh(answer.response) && answer.response in served
      // a hit at the second lookup
      ensures ck.Some? && ck.value in slots && now < slots[ck.value].expiry ==>
                var hit := HitCopy(StoredCopy(slots[ck.value].original), requestId);
                && outcome == Replied(Hit(slots[ck.value].original, entry.owner)) && after == slots
                && answer.Returned? && answer.response.Value() == hit.(headers := Merge(hit.headers, cors))
      // otherwise what the target gives
      ensures !(ck.Some? && ck.value in slots && now < slots[ck.value].expiry) && produced.Answer? ==>
                && outcome == Replied(Fresh(produced.response))
                && (if ck.Some? && produced.response.status < 400 && !produced.response.streaming
                    then after == slots[ck.value := Slot(storedAt + ttl, produced.response)]
                    else after == slots)
                && (if produced.response.streaming
                    then answer == Raised(InternalFailure("Streaming responses cannot be coalesced."))
                    else
                      && answer.Returned?
                      && answer.response.Value() == produced.response.(headers := Merge(produced.response.headers, cors)))
      ensures !(ck.Some? && ck.value in slots && now < slots[ck.value].expiry) && produced.Error? ==>
                outcome == Failed(produced.failure) && after == slots && answer == Raised(produced.failure)
    {
      answer, outcome, after :=
        AttemptAndRespond(render, g, slots, key, entry, ck, now, produced, storedAt, ttl, requestId, cors);
      RenderedAsIs(render, outcome, entry.owner, requestId);
    }
  }

  /** Every registered key has an entry. */
  ghost predicate Closed(g: Registry) {
    forall k :: k in g.inflight ==> g.inflight[k] in g.entries
  }

  function Waited(g: Registry, l: RequestId): Registry
    requires l in g.entries
  {
    g.(entries := g.entries[l := g.entries[l].(waiters := g.entries[l].waiters + 1)])
  }

  function Entered(g: Registry, key: Key, r: RequestId): Registry
    requires Closed(g)
  {
    if key !in g.inflight then Registry(g.inflight[key := r], g.entries[r := FRESH]) else Waited(g, g.inflight[key])
  }

  /** The leader l fills a slot of its entry. */
  function Written(g: Registry, l: RequestId, o: Outcome): Registry
    requires l in g.entries
  {
    g.(entries := g.entries[l := Published(g.entries[l], o)])
  }

  function Signalled(g: Registry, l: RequestId): Registry
    requires l in g.entries
  {
    g.(entries := g.entries[l := g.entries[l].(event := true)])
  }

  function Left(g: Registry, key: Key, l: RequestId): Registry {
    if key in g.inflight && g.inflight[key] == l then g.(inflight := g.inflight - {key}) else g
  }

  /** What a leader leaves behind: its entry filled and signalled, and its key free. */
  function Settled(g: Registry, key: Key, l: RequestId, o: Outcome): Registry
    requires l in g.entries
  {
    Left(Signalled(Written(g, l, Snapshot(o)), l), key, l)
  }

  /** A reading in terms of what is sent or shown: the error first, then the missing response. */
  lemma ReadingTheorem(render: Rendering, e: InFlight, requestId: string)
    ensures e.error.Some? ==>
              ReadOf(render, e, requestId).Raises? && Shown(ReadOf(render, e, requestId).failure) == Shown(e.error.value)
    ensures e.error.None? && e.result.None? ==>
              && ReadOf(render, e, requestId).Raises?
              && Shown(ReadOf(render, e, requestId).failure)
                 == Some((500, "Coalesced request completed without a response."))
    ensures e.error.None? && e.result.Some? ==>
              && ReadOf(render, e, requestId).Serves?
              && var r, led := ReadOf(render, e, requestId).response, render(e.result.value);
                 && r.status == led.status && r.body == led.body
                 && Without(r.headers, {"x-request-id", "x-napigate-coalesced"})
                    == Without(led.headers, {"x-request-id", "x-napigate-coalesced"})
                 && Get(r.headers, "x-request-id") == Some(requestId)
                 && Get(r.headers, "x-napigate-coalesced") == Some("true")
  {
    if e.error.Some? {
      ErrorsStayTheSame(e.error.value, requestId);
    } else if e.result.Some? {
      CoalescedCopyIsFaithful(render(e.result.value), requestId);
      SameName(CoalescedCopy(render(e.result.value), requestId).headers);
    }
  }

  lemma SameName(h: Headers)
    ensures Get(h, "x-request-id") == Get(h, REQUEST_ID)
    ensures Get(h, "x-napigate-coalesced") == Get(h, COALESCED_MARK)
  {
    OwnNamesLowered();
    assert Lower("x-request-id") == "x-request-id" && Lower("x-napigate-coalesced") == "x-napigate-coalesced";
    IndexOfIs(h, "x-request-id", IndexOf(h, REQUEST_ID));
    IndexOfIs(h, "x-napigate-coalesced", IndexOf(h, COALESCED_MARK));
  }

  // ---------------------------------------------------------------------------
  // The methods are the steps of the transition system
  // ---------------------------------------------------------------------------

  /** What a step does to registry and entries. */
  function RegistryStep(c: Setup, s: State, step: Step): Registry
    requires WellFormed(c, s) && Enabled(c, s, step)
  {
    var g := RegistryOf(s);
    match step
    case Register(r) =>
      assert Resolves(c.requests[r], s, r);
      Entered(g, CoalescingKey(c.requests[r]).value, r)
    case Publish(r) =>
      assert Resolves(c.requests[r], s, r);
      Written(g, r, Snapshot(s.procs[r].pc.outcome))
    case Signal(r) =>
      assert Resolves(c.requests[r], s, r);
      Signalled(g, r)
    case Remove(r) =>
      assert Resolves(c.requests[r], s, r);
      Left(g, CoalescingKey(c.requests[r]).value, r)
    case _ => g
  }

  /** What a step does to the cache. */
  function CacheStep(c: Setup, s: State, step: Step): map<string, Slot>
    requires ValidSetup(c) && WellFormed(c, s) && Enabled(c, s, step)
  {
    match step
    case ClearCache => map[]
    case Straggle(ck, late) => s.cache[ck := Slot(s.now + c.ttl[ck], late)]
    case Store(r, response) =>
      var ck := StoreKey(c.requests[r]).value;
      s.cache[ck := Slot(s.now + c.ttl[ck], response)]
    case _ => s.cache
  }

  lemma StepActsOnRegistry(c: Setup, s: State, step: Step)
    requires ValidSetup(c) && WellFormed(c, s) && Enabled(c, s, step)
    ensures RegistryOf(Apply(c, s, step)) == RegistryStep(c, s, step)
  {
    match step
    case Register(r) =>
      assert RegistryOf(Join(c, s, r)) == Entered(RegistryOf(s), CoalescingKey(c.requests[r]).value, r);
    case Publish(r) =>
    case Signal(r) =>
    case Remove(r) =>
    case _ =>
  }

  lemma StepActsOnCache(c: Setup, s: State, step: Step)
    requires ValidSetup(c) && WellFormed(c, s) && Enabled(c, s, step)
    ensures Apply(c, s, step).cache == CacheStep(c, s, step)
  {
  }

  lemma MethodsAreReady(c: Setup, s: State, step: Step)
    requires WellFormed(c, s) && RegistryInv(c, s) && Enabled(c, s, step)
    ensures Closed(RegistryOf(s))
    ensures step.Register? ==> step.r !in s.entries
    ensures step.Remove? ==> RegistryStep(c, s, step).inflight
                             == s.inflight - {CoalescingKey(c.requests[step.r]).value}
  {
    if step.Remove? {
      assert HoldsKey(c, s, step.r);
    }
  }

  /**
   Every step of the transition system does to registry, entries and cache exactly what the method
   of that step does to the objects, and in every reachable state a method finds its preconditions met:
   a request that registers has no entry yet, and a leader that leaves finds its own.
   */
  lemma StepsAreMethods(c: Setup, s: State, step: Step)
    requires Reachable(c, s) && WellFormed(c, s) && Enabled(c, s, step)
    ensures RegistryOf(Apply(c, s, step)) == RegistryStep(c, s, step)
    ensures Apply(c, s, step).cache == CacheStep(c, s, step)
    ensures step.ClearCache? ==> Apply(c, s, step).cache == map[]
    ensures step.Straggle? ==>
              step.ck in c.ttl && Apply(c, s, step).cache == s.cache[step.ck := Slot(s.now + c.ttl[step.ck], step.late)]
    ensures Closed(RegistryOf(s))
    ensures step.Register? ==> step.r !in s.entries
    ensures step.Remove? ==> RegistryStep(c, s, step).inflight
                             == s.inflight - {CoalescingKey(c.requests[step.r]).value}
  {
    ReachableIsSafe(c, s);
    StepActsOnRegistry(c, s, step);
    StepActsOnCache(c, s, step);
    MethodsAreReady(c, s, step);
  }

  /** A leader that publishes, signals and leaves settles its entry, as the method does in one go. */
  lemma SettlingIsThreeSteps(c: Setup, s: State, r: RequestId)
    requires ValidSetup(c) && WellFormed(c, s) && Enabled(c, s, Publish(r))
    ensures r in s.entries && CoalescingKey(c.requests[r]).Some?
    ensures var t := Apply(c, s, Publish(r));
            && Enabled(c, t, Signal(r))
            && var u := Apply(c, t, Signal(r));
               && Enabled(c, u, Remove(r))
               && RegistryOf(Apply(c, u, Remove(r)))
                  == Settled(RegistryOf(s), CoalescingKey(c.requests[r]).value, r, s.procs[r].pc.outcome)
               && Apply(c, u, Remove(r)).procs[r].pc == Done(Led(Snapshot(s.procs[r].pc.outcome)))
  {
    assert Resolves(c.requests[r], s, r);
    StepActsOnRegistry(c, s, Publish(r));
    var t := Apply(c, s, Publish(r));
    StepActsOnRegistry(c, t, Signal(r));
    StepActsOnRegistry(c, Apply(c, t, Signal(r)), Remove(r));
  }

  /**
   A leader's attempt as steps of the transition system: from the second lookup on, some steps of the
   leader alone bring it to the outcome, and the cache to the slots, that the method comes to.
   */
  lemma LeadingIsSteps(c: Setup, s: State, r: RequestId, produced: Produced) returns (steps: seq<Step>)
    requires ValidSetup(c) && WellFormed(c, s) && r < |s.procs| && s.procs[r].pc.Rechecking?
    ensures Legal(c, s, steps) && r < |After(c, s, steps).procs|
    ensures var ck, t := LookupKey(c.requests[r]), After(c, s, steps);
            if ck.Some? && ck.value in s.cache && s.now < s.cache[ck.value].expiry then
              && t.procs[r].pc == Publishing(Replied(Hit(s.cache[ck.value].original, r)))
              && t.cache == s.cache
            else
              && t.procs[r].pc == Publishing(OutcomeOf(produced))
              && if produced.Answer? && ck.Some? && produced.response.status < 400 && !produced.response.streaming
                 then ck.value in c.ttl && t.cache == s.cache[ck.value := Slot(s.now + c.ttl[ck.value], produced.response)]
                 else t.cache == s.cache
  {
    var ck := LookupKey(c.requests[r]);
    steps := SecondLookupIsSteps(c, s, r);
    if !(ck.Some? && ck.value in s.cache && s.now < s.cache[ck.value].expiry) {
      steps := GoingOnIsSteps(c, s, r, produced, steps);
    }
  }

  /** The execution behind a second lookup that found nothing. */
  lemma GoingOnIsSteps(c: Setup, s: State, r: RequestId, produced: Produced, first: seq<Step>)
    returns (steps: seq<Step>)
    requires ValidSetup(c) && WellFormed(c, s) && r < |s.procs| && s.procs[r].pc.Rechecking? && Legal(c, s, first)
    requires var u := After(c, s, first); u.cache == s.cache && u.now == s.now && u.procs[r].pc.Executing?
    ensures Legal(c, s, steps) && r < |After(c, s, steps).procs|
    ensures var ck, t := LookupKey(c.requests[r]), After(c, s, steps);
            && t.procs[r].pc == Publishing(OutcomeOf(produced))
            && if produced.Answer? && ck.Some? && produced.response.status < 400 && !produced.response.streaming
               then ck.value in c.ttl && t.cache == s.cache[ck.value := Slot(s.now + c.ttl[ck.value], produced.response)]
               else t.cache == s.cache
  {
    assert Resolves(c.requests[r], s, r) && LookupKey(c.requests[r]) == StoreKey(c.requests[r]);
    var rest := ExecutingIsSteps(c, After(c, s, first), r, produced);
    MoreSteps(c, s, first, rest);
    steps := first + rest;
  }

  /** The second lookup ends in a hit or in an execution. */
  lemma SecondLookupIsSteps(c: Setup, s: State, r: RequestId) returns (steps: seq<Step>)
    requires ValidSetup(c) && WellFormed(c, s) && r < |s.procs| && s.procs[r].pc.Rechecking?
    ensures Legal(c, s, steps) && r < |After(c, s, steps).procs|
    ensures var ck, u := LookupKey(c.requests[r]), After(c, s, steps);
            && u.cache == s.cache && u.now == s.now
            && if ck.Some? && ck.value in s.cache && s.now < s.cache[ck.value].expiry
               then u.procs[r].pc == Publishing(Replied(Hit(s.cache[ck.value].original, r)))
               else u.procs[r].pc.Executing?
  {
    var t := Apply(c, s, Recheck(r));
    if LookupKey(c.requests[r]).Some? {
      steps := [Recheck(r), CheckRecheck(r)];
      TwoSteps(c, s, Recheck(r), CheckRecheck(r));
    } else {
      steps := [Recheck(r)];
      OneStep(c, s, Recheck(r));
    }
  }

  /** The execution: a cacheable success is stored and returned, anything else is returned. */
  lemma ExecutingIsSteps(c: Setup, s: State, r: RequestId, produced: Produced) returns (steps: seq<Step>)
    requires ValidSetup(c) && WellFormed(c, s) && r < |s.procs| && s.procs[r].pc.Executing?
    requires CoalescingKey(c.requests[r]).Some?
    ensures Legal(c, s, steps) && r < |After(c, s, steps).procs|
    ensures var ck, t := StoreKey(c.requests[r]), After(c, s, steps);
            && t.procs[r].pc == Publishing(OutcomeOf(produced))
            && if produced.Answer? && ck.Some? && produced.response.status < 400 && !produced.response.streaming
               then ck.value in c.ttl && t.cache == s.cache[ck.value := Slot(s.now + c.ttl[ck.value], produced.response)]
               else t.cache == s.cache
  {
    var ck, o := StoreKey(c.requests[r]), OutcomeOf(produced);
    if ck.Some? && produced.Answer? && Cacheable(produced.response) {
      var kept := Kept(produced.response, s.now + c.ttl[ck.value], s.clears);
      var t := Apply(c, s, Store(r, produced.response));
      assert kept in t.procs[r].pc.kept;
      steps := [Store(r, produced.response), Return(r, o, Some(kept))];
      TwoSteps(c, s, Store(r, produced.response), Return(r, o, Some(kept)));
    } else {
      steps := [Return(r, o, None)];
      OneStep(c, s, Return(r, o, None));
    }
  }

  lemma OneStep(c: Setup, s: State, a: Step)
    requires ValidSetup(c) && WellFormed(c, s) && Enabled(c, s, a)
    ensures Legal(c, s, [a]) && After(c, s, [a]) == Apply(c, s, a)
  {
    assert [a][1..] == [];
  }

  lemma TwoSteps(c: Setup, s: State, a: Step, b: Step)
    requires ValidSetup(c) && WellFormed(c, s) && Enabled(c, s, a) && Enabled(c, Apply(c, s, a), b)
    ensures Legal(c, s, [a, b]) && After(c, s, [a, b]) == Apply(c, Apply(c, s, a), b)
  {
    assert [a, b][1..] == [b];
    OneStep(c, Apply(c, s, a), b);
  }

  lemma {:induction false} MoreSteps(c: Setup, s: State, first: seq<Step>, rest: seq<Step>)
    requires ValidSetup(c) && WellFormed(c, s) && Legal(c, s, first) && Legal(c, After(c, s, first), rest)
    ensures Legal(c, s, first + rest) && After(c, s, first + rest) == After(c, After(c, s, first), rest)
    decreases |first|
  {
    if first == [] {
      assert first + rest == rest;
    } else {
      assert (first + rest)[1..] == first[1..] + rest;
      MoreSteps(c, Apply(c, s, first[0]), first[1..], rest);
    }
  }

  /** The rendering that the requests of a setup use. */
  function RenderingOf(c: Setup): Rendering {
    (reply: Reply) =>
      if reply.Hit? && |c.ids| <= reply.requester then HitCopy(StoredCopy(reply.original), "") else Rendered(c, reply)
  }

  lemma RenderingIsPlain(c: Setup)
    ensures Plain(RenderingOf(c))
    ensures forall r :: 0 <= r < |c.ids| ==> RendersHits(RenderingOf(c), r, c.ids[r])
  {
  }

  /**
   A lookup and the clock test behind it serve what GetCachedResponse serves: the hit copy of a live
   entry, with the id of the request, and nothing else; at the first lookup and at a leader's second one.
   */
  lemma LookupsAreMethods(c: Setup, s: State, r: RequestId)
    requires ValidSetup(c) && WellFormed(c, s) && r < |s.procs| && LookupKey(c.requests[r]).Some?
    ensures var got := Find(s.cache, LookupKey(c.requests[r]).value);
            && (Enabled(c, s, Lookup(r)) ==>
                  var t := Apply(c, s, Lookup(r));
                  && Enabled(c, t, CheckLookup(r))
                  && var pc := Apply(c, t, CheckLookup(r)).procs[r].pc;
                     if Live(got, s.now) then
                       && pc == Done(FromCache(got.value.original))
                       && ServedReply(c, r, pc.final) == Some(HitCopy(StoredCopy(got.value.original), c.ids[r]))
                     else if CoalescingKey(c.requests[r]).Some? then pc == Registering
                     else pc.Executing?)
            && (Enabled(c, s, Recheck(r)) ==>
                  var t := Apply(c, s, Recheck(r));
                  && Enabled(c, t, CheckRecheck(r))
                  && var pc := Apply(c, t, CheckRecheck(r)).procs[r].pc;
                     if Live(got, s.now) then
                       && pc == Publishing(Replied(Hit(got.value.original, r)))
                       && RenderingOf(c)(pc.outcome.reply) == HitCopy(StoredCopy(got.value.original), c.ids[r])
                     else pc.Executing?)
  {
  }

  /** A second lookup that raises goes on as the leader's error does. */
  lemma LookupMayRaise(c: Setup, s: State, r: RequestId, failure: Failure)
    requires ValidSetup(c) && WellFormed(c, s) && r < |s.procs| && (s.procs[r].pc.Rechecking? || s.procs[r].pc.Rechecked?)
    ensures Enabled(c, s, Abort(r, failure))
    ensures Apply(c, s, Abort(r, failure)).procs[r].pc == Publishing(Failed(failure))
    ensures Apply(c, s, Abort(r, failure)).cache == s.cache
  {
  }

  /** While a request waits or reads, the entry that ReadSlots asks for is there, and signalled once it reads. */
  lemma WaitersHaveEntries(c: Setup, s: State, w: RequestId)
    requires Reachable(c, s) && WellFormed(c, s) && w < |s.procs|
    ensures var pc := s.procs[w].pc;
            && (pc.Waiting? || pc.Woken? ==> pc.leader in s.entries)
            && (pc.Woken? ==> s.entries[pc.leader].event)
  {
    ReachableIsSafe(c, s);
    assert CallInv(c, s, w) && Resolves(c.requests[w], s, w);
  }

  /**
   A request that waited serves or raises what ReadSlots makes of its leader's entry, in every state from
   the end of the wait on.
   */
  lemma WaitersReadSlots(c: Setup, s: State, w: RequestId)
    requires Reachable(c, s) && w < |s.procs| && s.procs[w].pc.Done? && s.procs[w].pc.final.Joined?
    ensures var f := s.procs[w].pc.final;
            && f.leader in s.entries && s.entries[f.leader].event && |c.ids| == |s.procs|
            && (f.outcome.Replied? && f.outcome.reply.Hit? ==> f.outcome.reply.requester < |c.ids|)
            && match ReadOf(RenderingOf(c), s.entries[f.leader], c.ids[w])
               case Serves(response) => ServedReply(c, w, f) == Some(response)
               case Raises(failure) => RaisedError(c, w, f) == Some(failure)
  {
    ReachableIsSafe(c, s);
    assert CallInv(c, s, w);
    WaiterTheorem(c, s, w);
    HitTheorem(c, s, w);
  }
}
