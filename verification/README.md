# NapiGate: verified models of the gateway's core

NapiGate is an HTTP gateway. It matches a request against configured routes, authenticates the client,
limits its rate, and sends the request to one or several targets, sharing one upstream execution and
one cached response among requests that ask for the same thing. This project models the dense, stateful
parts of it in Dafny and proves what they promise.

`dafny verify dfyconfig.toml` checks everything.

## What is modelled

**Coalescing and the response cache.** `Coalescing` is a transition system over any number of concurrent
requests. One step is one atomic action of the code: a cache read, the clock test after it, the critical
section of registration, a slot write, the event, the critical section of removal. A late worker of a
parallel race, the clock and the clearing of the cache are steps of the environment.
`CoalescingSafety`, `CoalescingCache`, `CoalescingProgress`, `CoalescingKinds` and `CoalescingServed` prove what every
run of it keeps. `Responses` holds the header merge and the copies of a response, `VaryMerging` the merge of Vary
values. `RuntimeObjects` has the mutable objects (responses, in-flight entries, the memory cache, the
registry), with one method per atomic step and one for the whole path of a leader, and shows that these methods are
the steps of the transition system and that nothing the gateway holds on to is an object it hands out.
`RequestKeys` and `ResponseCacheKeys` say which requests share work or a cached response, and
`CacheKeyCollisions` whose cache key is theirs alone, by `CacheKeyRoutes` as the route's template decides.

**Rate limiting.** `RateLimit` has the reference (the full history of admitted calls) and the pruned deque,
`RateLimitSkew` the deque when calls enter out of the order of their clocks, `RateLimitLua` the Redis script on a
sorted set whose key may expire. Time is real-valued.

**Custom output code.** `OutputSandbox` is the validator as a visitor and as a function,
`OutputSandboxAccepts` says exactly what it accepts and `OutputSandboxProblems` what it reports,
`OutputSandboxRun` is an interpreter of the whole syntax tree, including what the validator rejects,
`OutputSandboxSound` the soundness of one for the other, `OutputSandboxDefinite` the condition under which
accepted code finds every name bound. `OutputSandboxHelpers` has the dotted paths by which
such code reaches into a payload.

**Routing.** `PathTemplates` compiles templates and matches paths by greedy backtracking, `Routing` resolves
targets, chooses routes and rotates, `Strategies` has failover and the parallel race, `Credentials` the
search for the authenticated client, `AccessTokens` the OAuth tokens.

**Administration.** `Reports` and `ReportBuckets` aggregate logged requests, `ReportFigures` says what each figure
counts, `SecurityDocuments` validates roles and users, `SecurityAdmin` maintains them, `SecurityEffects` says what each
operation does, `SecurityIntegrity` proves what maintenance keeps.

`Text`, `Numerals`, `Ordering` and `Arithmetic` are shared helpers.

## Results a reader may not expect

- A token may swallow what looks like a separator. Every path decomposes in at most one way exactly when the template
  has a slash between any two consecutive tokens and at most one `:path` token (`PathTemplates.SeparatedTheorem`);
  any other template has a path that decomposes in two ways.
- Report buckets count exactly the rows of their interval for the divisors of 60 and for no other size
  (`ReportBuckets.SizeTheorem`), and rows of the window can be too old for the first bucket (`LooseTheorem`).
- The deque's retry advice falls short exactly when the remaining time is over a second and not whole
  (`RateLimit.DequeAdvice`). The script's advice never does.
- The clock is read before the critical section is entered. For a permitted inversion of clocks the deque keeps its
  bound on every sequence of calls exactly when the limit is one or no inversion is permitted at all
  (`RateLimitSkew.SkewTheorem`).
- A request without bars shares its cache key with a different request of its route exactly when it has two or more
  query and body parts together, or an equals sign in a query value, or, where the key does not vary by client, a
  single such part that its path can take over and still be matched to the route
  (`CacheKeyCollisions.OwnKeyTheorem`). The path of a route without tokens can take nothing over
  (`CacheKeyRoutes.FixedRouteTheorem`); on a route of plain tokens that ends in one it takes over exactly what has no
  slash (`PlainRouteTheorem`).
- Renaming an assigned role to a name with blanks around it fails, or hands its holders the role of the
  trimmed name (`SecurityIntegrity.UntrimmedRename`). The one caller, the handler of the role form
  (gateway/main.py:8619-8625), strips both names first, so only a direct call of `save_role` can do this.
- A route that requires authentication but has no resolved target lets everyone pass the credential search
  (`Credentials.SearchTheorem`).
- Validated code may still find a name unbound or end without a result (`OutputSandboxSound.AcceptedProgramMayBeUnbound`,
  `AcceptedProgramMayLackResult`). It cannot when every name is assigned on all paths to its use
  (`OutputSandboxDefinite.DefiniteTheorem`); for code without branches that is also necessary (`BranchFreeTheorem`),
  with branches it is not (`CorrelatedBranches`).
- A route with several targets, of which one streams, looks up and stores responses without sharing work: the kind
  `Solo` of the transition system. Executions of such requests may overlap.

## Assumptions

- One configuration generation: a reload clears the cache while leaders may be running, so nothing is claimed across
  one. All targets of a route that is cached resolve to the same cache configuration, which the code does not enforce.
- The clock never goes back. The code reads a wall clock that can be set back (gateway/cache.py:61, 67); then an entry
  outlives its lifetime, and the separation of executions by expiry does not hold.
- The payload of a token, once its signature is good, is a JSON object. Other valid JSON makes the code raise an
  unforeseen error (gateway/runtime.py:3347); a gateway signs nothing else.
- Digests, the JSON encodings and the payload codec of tokens are one-to-one; the message authentication code,
  address lists and credential matching are arbitrary functions.
- The Redis server runs the script atomically, call ids are distinct, calls reach it in the order of their clocks, and
  between two calls the server's clock gains at most one second on the callers' (`RateLimitLua.Follows`).
- Client names are slugs (gateway/config.py:40) and methods are those the server has handlers for
  (gateway/main.py:6944-6962): neither has a bar in it. Which paths arrive and are matched to a route is an arbitrary
  predicate in `CacheKeyCollisions`, the template's match in `CacheKeyRoutes`.
- Sandbox operations and helper calls see values, never the namespace.
- Route slugs are distinct, as loading a configuration enforces (gateway/config.py:1389-1392): a rotation belongs to one route.

## Model

| member | source | states |
|---|---|---|
| Responses.MergeResponseHeaders | gateway/runtime.py:2200-2219 | the dictionary loop computes the case-insensitive merge whose laws are the next rows |
| Responses.PutGet | gateway/runtime.py:2207-2218 | a merged header is found under its name in any case, with the new value |
| Responses.PutGetOther | gateway/runtime.py:2207-2218 | a merged header changes no lookup of another name |
| Responses.PutTheorem | gateway/runtime.py:2207-2218 | a merged header takes the place of the first one of its name, with that one's spelling and everything around it kept; a new name goes to the end |
| Responses.MergeGet | gateway/runtime.py:2200-2219 | after a merge a name has the last of the values merged in under it |
| Responses.MergeGetOther | gateway/runtime.py:2200-2219 | a name that is not merged in keeps its value |
| Responses.MergeKeepsOthers | gateway/runtime.py:2207-2218 | a merge leaves every header it does not name, in place and in order |
| Responses.CoalescedCopyIsFaithful | gateway/runtime.py:639-667 | a coalesced copy has the snapshot's status, body and headers except its own request id and the marker |
| Responses.CoalescedCopyInOrder | gateway/runtime.py:639-667 | where the snapshot has no marker, the new id and the marker come behind its other headers |
| Responses.HitCopyIsFaithful | gateway/runtime.py:1364-1413 | a hit on a stored response has its status and body, its headers without the three of the gateway, in order, and behind them the requester's id and the HIT mark |
| VaryMerging.VaryTheorem | gateway/runtime.py:2211-2216 | the merged Vary value lists exactly the tokens of both values, each once, in order, and merging again changes nothing |
| VaryMerging.ItemsTheorem | gateway/runtime.py:2212-2215 | a value lists its comma-separated parts, trimmed, without the blank ones |
| VaryMerging.TwoTokens | gateway/runtime.py:2216 | two different tokens are written with a comma and a space between them, one only once |
| CoalescingSafety.ReachableIsSafe | gateway/runtime.py:559-622 | every run of any number of requests keeps registry, entries, calls and waiters consistent |
| CoalescingSafety.RegistryTheorem | gateway/runtime.py:559-566 | at most one leader per key; a leader that removes finds its own entry; a key is registered exactly while its leader is between registration and removal |
| CoalescingSafety.PublishedTheorem | gateway/runtime.py:613-619 | once an event is set exactly one of result and error is, with the leader's outcome, and no later step changes them |
| CoalescingSafety.WaiterTheorem | gateway/runtime.py:568-587 | every waiter, also one that joins after the event, ends with the outcome of a leader of its own key whose call overlaps its own, never with the "completed without a response" error |
| CoalescingCache.MutualExclusionTheorem | gateway/runtime.py:559-614 | two route executions for one key never overlap |
| CoalescingCache.SingleExecutionTheorem | gateway/runtime.py:589-622 | two executions for a cached key that both ended below 400, published yet or not, are ordered, and when the later one began the entry of the earlier one had expired or been cleared |
| CoalescingCache.ExecutionsAreNeeded | gateway/runtime.py:589-622 | once an execution for a cached key has stored its success, any other one for that key, finished or running, had ended before it began or began after that entry expired or was cleared |
| CoalescingCache.HitTheorem | gateway/runtime.py:1339-1375 | whatever is served as a hit was stored under the request's cache key as a success |
| CoalescingProgress.BoundedRunTheorem | gateway/runtime.py:559-622 | every move of a request uses up some of a finite amount of work, which no other step restores |
| CoalescingProgress.RunsAreShort | gateway/runtime.py:535-622 | however it is scheduled, no run makes more than eleven moves per request |
| CoalescingProgress.ProgressTheorem | gateway/runtime.py:568-570 | an unfinished request can step, or executes, or waits on a leader that can step or executes; a leader that is gone has set the event |
| CoalescingProgress.QuiescenceTheorem | gateway/runtime.py:615-622 | when nothing can move and nothing executes, every request is done and the registry is empty |
| CoalescingKinds.KindsTheorem | gateway/runtime.py:535-622 | in every run a request with the bypass header runs its route itself and is never served a hit, a streaming route shares with nobody, and a request that waited did so on another one of its own kind and key |
| CoalescingKinds.StreamsAreNotShared | gateway/runtime.py:624-637 | in every run nobody reads a stream from a leader |
| CoalescingKinds.BeginningIsRecorded | gateway/runtime.py:589-612 | the history that the theorems speak of has the step, time and clearings at which an execution began |
| CoalescingKinds.StoringIsRecorded | gateway/runtime.py:1377-1413 | what an execution stores is on record with the expiry its cache slot gets |
| CoalescingKinds.EndingIsRecorded | gateway/runtime.py:549-557 | an execution's outcome goes to publication or, without a key, straight to the request, and a success that caching applies to is one it stored |
| CoalescingServed.ErrorsStayTheSame | gateway/runtime.py:669-704 | a waiter's error has the leader's status and detail, the fixed ones for transport and unforeseen errors, with the waiter's own request id and the marker; an interrupt is passed on unchanged |
| CoalescingServed.CoalescedIsFaithful | gateway/runtime.py:568-587 | in every run a request that waited sends its leader's response up to its own marks, or fails as its leader did |
| CoalescingServed.HitIsFaithful | gateway/runtime.py:1364-1413 | in every run a hit sends a response that was stored under the request's key below 400: its status, its body, its headers without the gateway's own, then the request's id and the mark |
| RuntimeObjects.MemoryCacheBackend.Lookup | gateway/cache.py:58-63 | an entry is served while the clock is before its expiry |
| RuntimeObjects.MemoryCacheBackend.Set | gateway/cache.py:65-67 | an entry expires its lifetime after it was set |
| RuntimeObjects.MemoryCacheBackend.Clear | gateway/cache.py:69-73 | clearing empties the cache and returns how much it held |
| RuntimeObjects.GatewayRuntime.GetCachedResponse | gateway/runtime.py:1364-1375 | serves a live entry in a new object that is the hit copy of what was stored |
| RuntimeObjects.GatewayRuntime.StoreCachedResponse | gateway/runtime.py:1377-1413 | stores a new copy of a response below 400 and nothing else, without touching what is held or registered |
| RuntimeObjects.GatewayRuntime.Register | gateway/runtime.py:559-566 | finds the entry of a key and counts one more waiter, or creates the entry: the registration step |
| RuntimeObjects.GatewayRuntime.Publish | gateway/runtime.py:613-637 | fills exactly one slot: with a new snapshot that equals the response, with the streaming error, or with the error raised |
| RuntimeObjects.GatewayRuntime.Signal | gateway/runtime.py:619 | sets the event and nothing else |
| RuntimeObjects.GatewayRuntime.Remove | gateway/runtime.py:620-622 | frees the key exactly when the entry registered for it is the leader's own object |
| RuntimeObjects.GatewayRuntime.ReadSlots | gateway/runtime.py:570-587 | a waiter raises the leader's error, or the empty error, or gets a clone in a new object |
| RuntimeObjects.GatewayRuntime.Receive | gateway/runtime.py:994-1049 | a target's response is an object of its own among those that go out |
| RuntimeObjects.GatewayRuntime.Execute | gateway/runtime.py:994-1068 | a target's response goes out in a new object and, when caching applies, it is below 400 and no stream, a copy of it is stored; otherwise the cache stays as it was |
| RuntimeObjects.GatewayRuntime.Lead | gateway/runtime.py:589-622 | the whole path of a leader: a live entry at the second lookup is served as its hit copy and leaves the cache alone; otherwise the answer is the target's response with the CORS headers merged in, the streaming error or the target's error, and the cache gets exactly a success that is no stream; the entry holds the outcome and is signalled, and the key is free |
| RuntimeObjects.LeadingIsSteps | gateway/runtime.py:589-613 | from the second lookup on, some steps of the leader alone bring the transition system to the outcome and the cache that the path of the leader comes to |
| RuntimeObjects.ReadingTheorem | gateway/runtime.py:570-587 | reading an entry raises its error, else the empty error, else serves its response with the waiter's id and the marker and nothing else changed |
| RuntimeObjects.LookupMayRaise | gateway/runtime.py:591-616 | a second lookup that raises publishes its error |
| RuntimeObjects.GatewayRuntime.AddCorsHeaders | gateway/runtime.py:415-418 | merging CORS headers into a served response changes no stored, published or other served response |
| RuntimeObjects.CloneFor | gateway/runtime.py:639-667 | the clone is a new object, equal to the coalesced copy of the snapshot |
| RuntimeObjects.RaisedFor | gateway/runtime.py:669-704 | the raised error is the coalesced form of the leader's error |
| RuntimeObjects.StepsAreMethods | gateway/runtime.py:559-622 | every step of the transition system does to registry, entries and cache what its method does to the objects, and in every reachable state a request that registers has no entry and a leader that leaves finds its own |
| RuntimeObjects.SettlingIsThreeSteps | gateway/runtime.py:613-622 | publication, event and removal together leave the registry that the leader's path leaves, and the leader done with what it published |
| RuntimeObjects.LookupsAreMethods | gateway/runtime.py:590-605 | the two lookup steps, first and second, serve what GetCachedResponse serves and go on as the code does otherwise |
| RuntimeObjects.WaitersReadSlots | gateway/runtime.py:568-587 | in every run a request that waited serves or raises what ReadSlots makes of its leader's entry |
| RequestKeys.KeyTheorem | gateway/runtime.py:1271-1311 | uncached requests share a key exactly when route, targets, method, path, URL, query, body, address, identities and the multiset of headers without the request id agree |
| RequestKeys.KeyIgnores | gateway/runtime.py:1290-1294 | moving a header, changing the case of its name or the request id keeps the key |
| RequestKeys.KeyTextTheorem | gateway/runtime.py:1263-1311 | the texts of cache-backed and fingerprint keys never run into each other and determine their parts |
| RequestKeys.KindTheorem | gateway/runtime.py:1249-1272 | the five kinds of requests of the transition system look up, share and store as the code decides, in every situation |
| ResponseCacheKeys.CacheKeyTheorem | gateway/runtime.py:1415-1441 | clean requests have the same cache key exactly when method, path, query, body, client name and varying headers agree |
| ResponseCacheKeys.KeyInFull | gateway/runtime.py:1422-1441 | the key of a request with one part of each kind, in full |
| ResponseCacheKeys.CollideByBar | gateway/runtime.py:1434-1441 | every request with two query parameters shares its key with a different one that has a bar in a value |
| ResponseCacheKeys.CollideByEquals | gateway/runtime.py:1433-1434 | an equals sign in a query name makes two different queries share a key |
| CacheKeyCollisions.OwnKeyTheorem | gateway/runtime.py:1415-1441 | a clean request shares its key with another request that is matched to its route, bars and equals signs anywhere, exactly when it has two query and body parts together, or an equals sign in a query value, or, without the client in the key, one part that put behind its path leaves a path matched to the route |
| CacheKeyCollisions.PathMustTake | gateway/runtime.py:1421-1441 | without the client in the key and with a single part, another request with the key has that part behind the path, whatever the route matches |
| CacheKeyCollisions.PathTakesQuery | gateway/runtime.py:1425-1434 | where the client is not in the key and the longer path is matched to the route, the path can take over the first query part |
| CacheKeyCollisions.ValueTakesBody | gateway/runtime.py:1433-1436 | the only query value can take over the body part |
| CacheKeyCollisions.PiecesOfKey | gateway/runtime.py:1441 | the parts of a clean request are the pieces between bars of every request with its key |
| CacheKeyRoutes.FixedRouteTheorem | gateway/runtime.py:226-247 | on a route without tokens a request shares its key exactly when it has two parts together or an equals sign in a query value, with or without the client in the key |
| CacheKeyRoutes.PlainRouteTheorem | gateway/runtime.py:226-247 | on a route of plain tokens that ends in one, without the client in the key, it also does so exactly when its single part has no slash |
| CacheKeyRoutes.PlainPath | gateway/config.py:308-317 | such a template matches a path with a part put behind it exactly when the part has no slash |
| CacheKeyRoutes.LongerMatches | gateway/config.py:308-317 | a template that ends in a token matches a longer path when the token allows what is added |
| RateLimit.WindowBound | gateway/cache.py:81-92 | every interval of the window's length holds at most `limit` admissions |
| RateLimit.DeniedExactly | gateway/cache.py:88-92 | a call is denied exactly when `limit` admissions lie in the window that ends at it |
| RateLimit.MemoryRateLimitBackend.CheckAndRecord | gateway/cache.py:81-92 | the popping loop answers and records as the deque function, for its key only |
| RateLimit.DequeIsRecentHistory | gateway/cache.py:84-91 | the deque is the part of the full admission history above the last cutoff |
| RateLimit.DequeIsExact | gateway/cache.py:84-92 | the deque admits a call exactly when the history does |
| RateLimit.DenialIsFull | gateway/cache.py:88-90 | a denial sees a full window and advises the whole part of the time until its oldest admission leaves, at least one |
| RateLimit.AdmittedOnceOver | gateway/cache.py:85-88 | after a denial a call is admitted exactly when the oldest admission has left the window |
| RateLimit.DequeAdvice | gateway/cache.py:89 | waiting the deque's advice is enough exactly when the remaining time is whole or at most a second; one second more always is |
| RateLimitSkew.SkewTheorem | gateway/cache.py:81-92 | with clocks inverted by at most a given skew the deque keeps the bound on all sequences of calls exactly when the limit is one or the skew is zero |
| RateLimitSkew.SkewBreaksBound | gateway/cache.py:81-92 | for every limit of two or more, window and skew up to the window, limit + 2 calls with one late by the skew put limit + 1 admissions into one window |
| RateLimitSkew.SingleIsSpaced | gateway/cache.py:84-91 | with limit one, admissions are a window apart in every order of calls |
| RateLimitSkew.AdmittedIsHistory | gateway/cache.py:81-92 | for calls in the order of their clocks the deque's own admissions are the reference history |
| RateLimitSkew.ClockOrderMatters | gateway/cache.py:82-83 | an instance: limit two, a call a tenth of a second late |
| RateLimitLua.EvictionIsHarmless | gateway/cache.py:24 | when the server has expired the key, no admission is left in the window |
| RateLimitLua.ScriptIsCoupled | gateway/cache.py:13-31 | on every call sequence the sorted set holds the members of the recent history |
| RateLimitLua.ScriptIsExact | gateway/cache.py:21-30 | the script admits exactly when the history does, and otherwise advises the remaining time rounded up, at least one |
| RateLimitLua.TwoLimitersAgree | gateway/cache.py:13-92 | script and deque give the same answers with advice at most one apart, and a call after the script's advice is admitted |
| OutputSandbox.CustomOutputValidator.Validate | gateway/output_sandbox.py:67-73 | the visitor's verdict and collected names are those of the rules, in their order |
| OutputSandbox.CustomOutputValidator.ValidateStatement | gateway/output_sandbox.py:75-97 | assignments collect their targets before their value is checked; a branch keeps its names for what follows |
| OutputSandbox.CustomOutputValidator.ValidateTarget | gateway/output_sandbox.py:99-107 | only plain, unreserved names without a leading underscore are collected |
| OutputSandbox.CustomOutputValidator.ValidateExpression | gateway/output_sandbox.py:109-176 | an expression is accepted by the rules for the names collected so far |
| OutputSandboxAccepts.ExpressionTheorem | gateway/output_sandbox.py:109-176 | an expression is accepted exactly when each of its nodes is allowed by its own kind, operator, name or callee |
| OutputSandboxAccepts.NodesTheorem | gateway/output_sandbox.py:109-176 | its nodes are itself and those of every expression inside it |
| OutputSandboxAccepts.ProgramTheorem | gateway/output_sandbox.py:67-107 | code is accepted exactly when it is not empty, assigns `result`, and every statement of its text is an assignment to unreserved plain names, a non-empty conditional or `pass`, with expressions accepted for the names assigned so far, its own targets included |
| OutputSandboxAccepts.AssignedTheorem | gateway/output_sandbox.py:75-107 | the names assigned by a text are those that stand as targets in it |
| OutputSandboxAccepts.VocabularyTheorem | gateway/output_sandbox.py:10-31 | the eighteen names that code finds |
| OutputSandboxProblems.ExpressionProblem | gateway/output_sandbox.py:109-176 | a rejected expression has a node with the problem that is reported |
| OutputSandboxProblems.ProgramProblem | gateway/output_sandbox.py:67-107 | rejected code is empty, lacks `result`, or has the reported problem in the first statement of its text that is not allowed |
| OutputSandboxRun.OperationsRun | gateway/output_sandbox.py:297 | the interpreter takes operands in order and `and` and `or` by their shortcuts |
| OutputSandboxRun.BranchesRun | gateway/output_sandbox.py:297 | a conditional runs the one branch that its test chooses |
| OutputSandboxRun.BlocksRun | gateway/output_sandbox.py:297 | statements run one after the other |
| OutputSandboxSound.EvalIsGood | gateway/output_sandbox.py:109-176 | evaluating an accepted expression stores nothing, calls only helpers and can only find an assigned name unbound |
| OutputSandboxSound.BlockKeeps | gateway/output_sandbox.py:75-97 | running an accepted block keeps the initial bindings and adds no names but the collected ones |
| OutputSandboxSound.BlockStops | gateway/output_sandbox.py:75-97 | a block that finds a name unbound assigns it in the text up to the statement that stops |
| OutputSandboxSound.ValidatorSoundness | gateway/output_sandbox.py:276-300 | for every accepted program and input: initial bindings kept, only helpers called, names within initial plus assigned, unbound names only from the same or an earlier statement of the text |
| OutputSandboxSound.AcceptedProgramMayBeUnbound | gateway/output_sandbox.py:77-80 | a name counts as assigned for its own right-hand side |
| OutputSandboxSound.AcceptedProgramMayLackResult | gateway/output_sandbox.py:72-73 | an assignment to `result` in a branch that is not taken is enough to be accepted |
| OutputSandboxDefinite.DefiniteTheorem | gateway/output_sandbox.py:276-300 | accepted code in which every name is surely assigned before its use never finds a name unbound, for any meaning of its operations and any input, and yields a result when `result` is surely assigned and no operation raises |
| OutputSandboxDefinite.BranchFreeTheorem | gateway/output_sandbox.py:276-300 | for accepted code without branches that condition holds exactly when no meaning of the operations and no input lets it find a name unbound |
| OutputSandboxDefinite.CorrelatedBranches | gateway/output_sandbox.py:83-93 | with branches it is sufficient only: two conditionals on one flag never fail |
| OutputSandboxHelpers.PathValue | gateway/output_sandbox.py:217-237 | the loop finds the value at a dotted path, or the default when it is absent or, given a default, empty |
| OutputSandboxHelpers.PathTheorem | gateway/output_sandbox.py:219-234 | a path leads to the entry that its trimmed last part names in the mapping that the rest leads to, or to the item of that number in a list, and nowhere else |
| OutputSandboxHelpers.OnePartTheorem | gateway/output_sandbox.py:219-234 | a path without a dot selects from the payload itself, by the same rule |
| OutputSandboxHelpers.Pick | gateway/output_sandbox.py:239-241 | the value at a path unless absent or empty |
| OutputSandboxHelpers.PickFirst | gateway/output_sandbox.py:243-249 | the first usable value of several paths |
| OutputSandboxHelpers.Exists | gateway/output_sandbox.py:251-252 | tells whether a path leads somewhere, even to an empty value |
| OutputSandboxHelpers.AddressTheorem | gateway/output_sandbox.py:217-237 | every part of a payload under trimmed, dot-free keys is found under its path |
| PathTemplates.CompileGatewayPath | gateway/config.py:300-317 | the scanning loop splits a template into literals and tokens; a repeated group name does not compile |
| PathTemplates.CompileTheorem | gateway/config.py:300-317 | a template compiles exactly when no two of its tokens have the same name |
| PathTemplates.TokenTheorem | gateway/config.py:39 | a brace, an identifier of ASCII letters, digits and underscores, an optional `:path` and a brace make a token |
| PathTemplates.TokensAreOnly | gateway/config.py:39 | nothing else makes one |
| PathTemplates.TemplateTheorem | gateway/config.py:304-317 | templates and alternating lists of plain literals and tokens correspond one to one |
| PathTemplates.MatchTheorem | gateway/config.py:308-317 | a path matches exactly when it decomposes into the literals and non-empty captures of the right characters; where another decomposition first differs in the length of a capture, the match has the longer one |
| PathTemplates.SeparatedTheorem | gateway/config.py:308-317 | every path without line feeds decomposes in at most one way exactly when the template has a slash between any two consecutive tokens and at most one whole token |
| PathTemplates.AmbiguousPath | gateway/config.py:308-317 | any other template has a path x m x m x that decomposes in two ways, m being the text between two of its tokens |
| PathTemplates.MatchIsTheDecomposition | gateway/config.py:308-317 | for the former the matcher finds the one decomposition there is |
| PathTemplates.AmbiguousWithoutSlash | gateway/config.py:308-317 | an instance: two plain tokens with a hyphen between them |
| PathTemplates.RouteParameters | gateway/runtime.py:226-247 | the parameters are named as in the template, put back they give the path, and plain ones contain no slash |
| PathTemplates.FilledPathMatches | gateway/runtime.py:226-247 | conversely the template with non-empty values in place of its tokens matches, if no plain value has a slash and none a line feed |
| Routing.EndpointLookup | gateway/runtime.py:269-275 | the nested loops file every endpoint under its service with its name and slug |
| Routing.LookupTheorem | gateway/runtime.py:269-285 | a target resolves exactly when a configured endpoint has that name or slug, and to the last one in the configuration that has |
| Routing.LookupInFull | gateway/runtime.py:269-285 | a target leads to the last endpoint in the configuration that is its service's and has its name or slug, and resolves exactly when there is one |
| Routing.Router.RouteTargets | gateway/runtime.py:277-285 | a route's resolved targets, in order |
| Routing.ResolvedTheorem | gateway/runtime.py:277-285 | the resolved targets are the entries of exactly those targets that have one, each once, in the order of the route |
| Routing.FirstResolved | gateway/runtime.py:277-295 | the first of them is that of the first target that resolves |
| Routing.Router.SelectRouteTarget | gateway/runtime.py:291-301 | a route that does not rotate selects the first of its targets that resolves; a rotation over several takes the counter's and advances it by one |
| Routing.Router.Match | gateway/runtime.py:226-247 | the first route that serves the method, matches the path and has a target wins, and only its rotation moves |
| Routing.RoundRobinTheorem | gateway/runtime.py:298-301 | N selections of a route visit each of k targets N/k times rounded down or up, whatever other routes do in between |
| Strategies.ExecuteFailover | gateway/runtime.py:706-757 | returns the verdict on the outcomes in order, having called exactly the prefix of the targets that it needed, once each |
| Strategies.ExecuteParallelRace | gateway/runtime.py:759-806 | returns the same verdict on the completion order |
| Strategies.FailoverTheorem | gateway/runtime.py:718-757 | a response below 500 behind responses and gateway errors from 500 up and transport errors is returned, a gateway error below 500 or an unforeseen exception behind them is raised, with nothing called after it |
| Strategies.ExhaustedTheorem | gateway/runtime.py:741-757 | when every outcome is one of those, the last response is returned, else the last error raised if it is a gateway error, else a 502 |
| Strategies.LastAnswerIs | gateway/runtime.py:730-751 | what is kept over the loop is the last response |
| Strategies.VerdictTheorem | gateway/runtime.py:718-757 | the first response or gateway error below 500 or other exception is the result; without one, the last response; without any response, the last error if it is a gateway error, else a 502 |
| Strategies.TriedTheorem | gateway/runtime.py:718-728 | targets after the one that decides do not matter and are not asked |
| Strategies.RaceTheorem | gateway/runtime.py:783-806 | healthy in every completion order exactly when some target is healthy and none ends with an error below 500 or an unforeseen exception |
| Credentials.MatchScopedClientCredentials | gateway/runtime.py:2818-2871 | the nested loops answer from the first triple of client, method and target that ends the search |
| Credentials.AnswerIsUnique | gateway/runtime.py:2845-2871 | that determines the answer |
| Credentials.SearchTheorem | gateway/runtime.py:2845-2871 | required mode: 401 exactly when nothing in scope matches, 403 exactly when the first match is off its address list, nobody exactly without targets; optional mode finds the first permitted match if there is one |
| Credentials.WinnerTheorem | gateway/runtime.py:2818-2888 | in every mode the answer comes from the first enabled method of an enabled client whose access covers a target and whose credentials match, permitted unless the search is strict; without one it is 401 or nobody |
| AccessTokens.Base64urlRoundTrip | gateway/runtime.py:3361-3366 | stripped and re-padded base64url decodes to the original for every number of bytes and contains no dot |
| AccessTokens.EncodingTheorem | gateway/runtime.py:3361-3362 | three bytes give four symbols of six bits each, one and two at the end two and three |
| AccessTokens.TokenTheorem | gateway/runtime.py:3297-3359 | a built token verifies exactly for the same client code, method code and client id, a secret that signs alike, before its expiry |
| AccessTokens.VerifyTheorem | gateway/runtime.py:3322-3359 | any token, whoever made it, is valid exactly when its signature is the one of the method's own secret over its payload and the payload names this client, method and id and an expiry ahead |
| AccessTokens.OwnToken | gateway/runtime.py:3322-3359 | only the client-credentials kind issues tokens, and the own client can use one exactly until it expires |
| Reports.MakeReport | gateway/monitoring.py:245-373 | the loops over buckets and rows compute the report as a function of the rows, for the hours and the bucket size asked for, zero meaning the default and one the least |
| Reports.ConservationTheorem | gateway/monitoring.py:316-387 | totals equal the sums over classes, status codes, services and paths; failures equal 4xx plus 5xx |
| ReportBuckets.FiguresTheorem | gateway/monitoring.py:316-387 | every total, last-hour figure, class, code, service and path figure is the number of rows it claims to count |
| ReportBuckets.BucketCounts | gateway/monitoring.py:352-361 | each bucket counts, in all and by kind, the rows that are rounded down to its start |
| ReportBuckets.BucketTheorem | gateway/monitoring.py:251-257 | for sizes that divide 60 these are exactly the rows of its half-open interval |
| ReportBuckets.SizeTheorem | gateway/monitoring.py:252-254 | the divisors of 60 are the only exact sizes |
| ReportBuckets.LooseTheorem | gateway/monitoring.py:255-259 | a row of the window that no bucket counts lies in the window's first bucket length or after the current bucket |
| ReportBuckets.BucketsConserve | gateway/monitoring.py:352-361 | the buckets and the rows they miss add up to the total |
| ReportFigures.WindowTheorem | gateway/monitoring.py:258-321 | the rows of the window are those with a readable time not before the last hours |
| ReportFigures.TotalsTheorem | gateway/monitoring.py:328-332 | requests, failures from 400 up and cache hits are the numbers of such rows of the window |
| ReportFigures.LastHourTheorem | gateway/monitoring.py:335-337 | and those of the last hour |
| ReportFigures.FailingClasses | gateway/monitoring.py:341-344 | the 5xx and 4xx figures are the rows of those statuses |
| ReportFigures.OtherClasses | gateway/monitoring.py:345-350 | so are 3xx, 2xx and the rest |
| ReportFigures.CodesTheorem | gateway/monitoring.py:339-340 | each status code is counted |
| ReportFigures.ServicesTheorem | gateway/monitoring.py:325-374 | each service is counted under its trimmed name, a blank one under a dash |
| ReportFigures.PathsTheorem | gateway/monitoring.py:326-387 | so is each path |
| ReportFigures.BucketInFull | gateway/monitoring.py:352-361 | for sizes that divide 60 a bucket counts the rows of the window in its half-open interval, in all and by kind |
| ReportFigures.LayoutTheorem | gateway/monitoring.py:245-294 | such buckets are as many as cover the hours, end to end, and the last one holds the present |
| ReportFigures.FloorTheorem | gateway/monitoring.py:352-353 | for every size a time is rounded down within its hour, to the last whole minute that is a multiple of the size |
| SecurityDocuments.ValidateSecurityDocument | gateway/security.py:124-175 | the loops reject a document or return its normal form |
| SecurityDocuments.ValidationTheorem | gateway/security.py:124-175 | a validated document has only known permissions, defined roles and no repetitions; exactly such documents are left alone, so validation is idempotent |
| SecurityEffects.AcceptanceTheorem | gateway/security.py:124-175 | a document is accepted exactly when every permission is known, every role of a user defined and every hash empty or of four parts, blanks aside; what is saved has each list trimmed and without repetitions, in order |
| SecurityAdmin.SecurityStore.SaveRole | gateway/admin_ops.py:1178-1210 | the saved document is the edited and validated one, or unchanged when the operation raises |
| SecurityAdmin.SecurityStore.DeleteRole | gateway/admin_ops.py:1213-1227 | likewise; an assigned role is not deleted |
| SecurityAdmin.SecurityStore.SaveUser | gateway/admin_ops.py:1230-1272 | likewise; a user keeps the old hash unless a password is given, and needs one of them |
| SecurityAdmin.SecurityStore.DeleteUser | gateway/admin_ops.py:1275-1282 | likewise |
| SecurityEffects.SaveUserTheorem | gateway/admin_ops.py:1230-1272 | when it is refused; otherwise the named user is replaced under its new name, with exactly the given roles and state, the new hash or the one it held, and nothing else changes |
| SecurityEffects.RolesInOrder | gateway/admin_ops.py:1243-1250 | the roles are saved in the order in which they are given |
| SecurityEffects.DeleteUserTheorem | gateway/admin_ops.py:1275-1282 | deleting takes away that user alone |
| SecurityEffects.DeleteRoleTheorem | gateway/admin_ops.py:1213-1227 | deleting takes away that role alone, and is refused exactly when it is unknown or assigned |
| SecurityEffects.SaveRoleTheorem | gateway/admin_ops.py:1178-1210 | saving a role under its own name sets its permissions to the known ones given and changes nothing else |
| SecurityEffects.PermissionsInOrder | gateway/admin_ops.py:1189-1193 | in the order in which they are given |
| SecurityEffects.RenameRoleTheorem | gateway/admin_ops.py:1195-1208 | a rename is refused when the new name is taken; otherwise it moves exactly the holders and changes nothing else |
| SecurityEffects.RenameInPlace | gateway/admin_ops.py:1201-1206 | the new name stands where the old one stood |
| SecurityAdmin.HashIsWellFormed | gateway/security.py:75-85 | a new hash has the format that validation asks for |
| SecurityIntegrity.RunTheorem | gateway/admin_ops.py:1178-1282 | every run of operations from a validated document keeps it valid, and later validation neither rejects nor changes it |
| SecurityIntegrity.SaveTheorem | gateway/admin_ops.py:1178-1282 | an operation that passes its own checks is saved exactly as edited, if and only if it does not rename an assigned role to an untrimmed name |
| SecurityIntegrity.RenameTheorem | gateway/admin_ops.py:1195-1208 | a rename moves exactly the holders of the role, under the same condition |
| SecurityIntegrity.UntrimmedRename | gateway/admin_ops.py:1195-1208 | otherwise it fails, or its holders get the role of the trimmed name |
| SecurityIntegrity.CollectPermissions | gateway/security.py:310-314 | the permissions of a principal are the union over its roles |
| SecurityIntegrity.PermissionsAreKnown | gateway/security.py:310-314 | after any run nobody has a permission that is not known |
| SecurityIntegrity.RenameKeepsPermissions | gateway/admin_ops.py:1195-1208 | a rename that keeps the role's permissions changes nobody's |

## Left out

- Upstream HTTP and gRPC calls, sessions, streaming bodies, cURL rendering: a target execution is an arbitrary outcome.
- `pre_call` and `external_service` scripts: arbitrary Python; credential matching by script is a function that does not raise.
- Asynchronous exceptions between registration and the `try` block (gateway/runtime.py:566-589), which could leave an entry behind.
- The Redis cache backend, and the fallbacks of both Redis backends when Redis fails; hot reload and SQLite.
- A late worker of a race is an environment step that may store at any time, under any cached key, more than the code would.
- Floating point: times are reals, and the report's durations, averages, rates, percentile and top lists are not computed.
- Letter case and blanks are those of ASCII; the code uses Python's Unicode rules.
- The report's SQL pre-filter: the rows are those it returns, and the filter keeps every row of the window.
- Documents of the wrong shape (a role that is no mapping, and so on) are rejected by the code and cannot be expressed here.
- The order of dictionary entries in a security document, and which of several problems its validation reports first.
- Host, IP network, cookie and header credential formats, and which methods a client uses to present them.
- Decoding of base64 text that is not ASCII is rejected as the code does; the payload's UTF-8 and JSON decoding are one function.
- Lock acquisition and thread pools: a critical section is one step, and a race sees its workers in an arbitrary order.
- The helpers `success`, `text` and Python's own `len`, `bool`, `int`, `float` and `str` in custom output code.
- `gateway/main.py`, settings, logging setup and the field-by-field loading of configuration.
