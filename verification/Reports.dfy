/**
 The windowed report over logged requests: totals, breakdowns and time buckets.

 A time is a number of microseconds on the wall clock of the report's time zone.
 */
module Reports {
  import opened Text
  import opened Arithmetic

  const MINUTE := 60_000_000
  const HOUR := 3_600_000_000

  /** A logged request; its time is missing when it cannot be read. */
  datatype Row = Row(created: Option<int>, status: int, service: string, path: string, cacheHit: bool)

  datatype Class = Success | Redirect | ClientError | ServerError | Other

  datatype Stats = Stats(requests: nat, failures: nat)

  datatype Bucket = Bucket(requests: nat, failures: nat, hits: nat, codes: map<int, nat>)

  datatype Report = Report(
    requests: nat, failures: nat, hits: nat,
    lastHour: Stats,
    classes: map<Class, nat>,
    codes: map<int, nat>,
    services: map<string, Stats>,
    paths: map<string, Stats>,
    buckets: map<int, Bucket>)      // by start

  // ---------------------------------------------------------------------------
  // The window
  // ---------------------------------------------------------------------------

  /** The last `hours` hours in buckets of `minutes` minutes. */
  datatype Window = Window(now: int, hours: nat, minutes: nat)

  predicate ValidWindow(W: Window) {
    W.hours >= 1 && W.minutes >= 1
  }

  /** Zero asks for the default, anything below one for one. */
  function Setting(value: int, default: nat): (n: nat)
    requires default >= 1
    ensures n >= 1
  {
    if value == 0 then default else if value < 1 then 1 else value
  }

  function Normalized(now: int, hours: int, minutes: int): (W: Window)
    ensures ValidWindow(W)
  {
    Window(now, Setting(hours, 24), Setting(minutes, 60))
  }

  function MinuteOfHour(t: int): nat {
    t / MINUTE % 60
  }

  /** Drops seconds, and the minutes past the last multiple of `minutes` in the hour. */
  function BucketFloor(t: int, minutes: nat): int
    requires minutes >= 1
  {
    t - t % MINUTE - MinuteOfHour(t) % minutes * MINUTE
  }

  function BucketCount(W: Window): (n: nat)
    requires ValidWindow(W)
    ensures n >= 1
  {
    var n := (W.hours * 60 + W.minutes - 1) / W.minutes;
    if n < 1 then 1 else n
  }

  function Length(W: Window): int {
    W.minutes * MINUTE
  }

  function Current(W: Window): int
    requires ValidWindow(W)
  {
    BucketFloor(W.now, W.minutes)
  }

  function FirstBucket(W: Window): int
    requires ValidWindow(W)
  {
    Current(W) - Length(W) * (BucketCount(W) - 1)
  }

  function BucketStart(W: Window, i: nat): int
    requires ValidWindow(W)
  {
    FirstBucket(W) + Length(W) * i
  }

  function Cutoff(W: Window): int {
    W.now - W.hours * HOUR
  }

  predicate Counted(W: Window, row: Row) {
    row.created.Some? && row.created.value >= Cutoff(W)
  }

  // ---------------------------------------------------------------------------
  // The report as a function of the rows
  // ---------------------------------------------------------------------------

  function ClassOf(status: int): Class {
    if status >= 500 then ServerError
    else if status >= 400 then ClientError
    else if status >= 300 then Redirect
    else if status >= 200 then Success
    else Other
  }

  function One(b: bool): nat {
    if b then 1 else 0
  }

  function Bump<K>(m: map<K, nat>, k: K): map<K, nat> {
    m[k := (if k in m then m[k] else 0) + 1]
  }

  function BumpStats(m: map<string, Stats>, k: string, failed: bool): map<string, Stats> {
    var prior := if k in m then m[k] else Stats(0, 0);
    m[k := Stats(prior.requests + 1, prior.failures + One(failed))]
  }

  function Named(s: string): string {
    var name := Strip(s);
    if name == "" then "-" else name
  }

  function Failed(row: Row): bool {
    row.status >= 400
  }

  function BumpBucket(b: Bucket, row: Row): Bucket {
    Bucket(b.requests + 1, b.failures + One(Failed(row)), b.hits + One(row.cacheHit), Bump(b.codes, row.status))
  }

  const EMPTY_BUCKET := Bucket(0, 0, 0, map[])

  function EmptyBuckets(W: Window, n: nat): map<int, Bucket>
    requires ValidWindow(W)
  {
    if n == 0 then map[] else EmptyBuckets(W, n - 1)[BucketStart(W, n - 1) := EMPTY_BUCKET]
  }

  function Empty(W: Window): Report
    requires ValidWindow(W)
  {
    Report(0, 0, 0, Stats(0, 0), map[], map[], map[], map[], EmptyBuckets(W, BucketCount(W)))
  }

  function Add(W: Window, r: Report, row: Row): Report
    requires ValidWindow(W)
  {
    if !Counted(W, row) then r
    else
      var t, failed := row.created.value, Failed(row);
      var start := BucketFloor(t, W.minutes);
      Report(
        r.requests + 1, r.failures + One(failed), r.hits + One(row.cacheHit),
        if t >= W.now - HOUR then Stats(r.lastHour.requests + 1, r.lastHour.failures + One(failed)) else r.lastHour,
        Bump(r.classes, ClassOf(row.status)),
        Bump(r.codes, row.status),
        BumpStats(r.services, Named(row.service), failed),
        BumpStats(r.paths, Named(row.path), failed),
        if start in r.buckets then r.buckets[start := BumpBucket(r.buckets[start], row)] else r.buckets)
  }

  function Build(W: Window, rows: seq<Row>): Report
    requires ValidWindow(W)
  {
    if rows == [] then Empty(W) else Add(W, Build(W, rows[..|rows| - 1]), rows[|rows| - 1])
  }

  method MakeReport(rows: seq<Row>, now: int, hours: int, minutes: int) returns (r: Report)
    ensures r == Build(Normalized(now, hours, minutes), rows)
    // zero asks for the defaults, and nothing is below one
    ensures Normalized(now, hours, minutes)
            == Window(now, if hours == 0 then 24 else if hours < 1 then 1 else hours,
                      if minutes == 0 then 60 else if minutes < 1 then 1 else minutes)
  {
    var W := Normalized(now, hours, minutes);
    var buckets: map<int, Bucket> := map[];
    for offset := 0 to BucketCount(W)
      invariant buckets == EmptyBuckets(W, offset)
    {
      buckets := buckets[FirstBucket(W) + Length(W) * offset := EMPTY_BUCKET];
    }
    var requests: nat, failures: nat, hits: nat, recent: nat, recentFailures: nat := 0, 0, 0, 0, 0;
    var classes: map<Class, nat> := map[];
    var codes: map<int, nat> := map[];
    var services: map<string, Stats> := map[];
    var paths: map<string, Stats> := map[];
    for n := 0 to |rows|
      invariant Report(requests, failures, hits, Stats(recent, recentFailures), classes, codes, services, paths, buckets)
                == Build(W, rows[..n])
    {
      var row := rows[n];
      BuildStep(W, rows, n);
      ghost var before := Report(requests, failures, hits, Stats(recent, recentFailures), classes, codes, services, paths, buckets);
      if row.created.Some? && row.created.value >= Cutoff(W) {
        var t, failed := row.created.value, row.status >= 400;
        requests, failures, hits := requests + 1, failures + One(failed), hits + One(row.cacheHit);
        if t >= W.now - HOUR {
          recent, recentFailures := recent + 1, recentFailures + One(failed);
        }
        codes := Bump(codes, row.status);
        classes := Bump(classes, ClassOf(row.status));
        var start := BucketFloor(t, W.minutes);
        if start in buckets {
          buckets := buckets[start := BumpBucket(buckets[start], row)];
        }
        services := BumpStats(services, Named(row.service), failed);
        paths := BumpStats(paths, Named(row.path), failed);
      }
      assert Report(requests, failures, hits, Stats(recent, recentFailures), classes, codes, services, paths, buckets)
          == Add(W, before, row);
    }
    assert rows[..|rows|] == rows;
    r := Report(requests, failures, hits, Stats(recent, recentFailures), classes, codes, services, paths, buckets);
  }

  lemma BuildStep(W: Window, rows: seq<Row>, n: nat)
    requires ValidWindow(W) && n < |rows|
    ensures Build(W, rows[..n + 1]) == Add(W, Build(W, rows[..n]), rows[n])
  {
    assert rows[..n + 1][..n] == rows[..n];
  }

  // ---------------------------------------------------------------------------
  // Conservation
  // ---------------------------------------------------------------------------

  ghost function Sum<K(!new)>(m: map<K, nat>): nat
    decreases |m|
  {
    if m == map[] then 0 else var k :| k in m; m[k] + Sum(m - {k})
  }

  /** The sum does not depend on the order in which the keys are taken. */
  lemma {:induction false} SumWithout<K(!new)>(m: map<K, nat>, k: K)
    requires k in m
    ensures Sum(m) == m[k] + Sum(m - {k})
    decreases |m|
  {
    var j :| j in m && Sum(m) == m[j] + Sum(m - {j});
    if j != k {
      SumWithout(m - {j}, k);
      SumWithout(m - {k}, j);
      assert m - {j} - {k} == m - {k} - {j};
    }
  }

  lemma BumpSums<K(!new)>(m: map<K, nat>, k: K)
    ensures Sum(Bump(m, k)) == Sum(m) + 1
  {
    var b := Bump(m, k);
    SumWithout(b, k);
    assert b - {k} == m - {k};
    if k in m {
      SumWithout(m, k);
    } else {
      assert m - {k} == m;
    }
  }

  function At<K>(m: map<K, nat>, k: K): nat {
    if k in m then m[k] else 0
  }

  ghost function RequestsOf(m: map<string, Stats>): map<string, nat> {
    map k | k in m :: m[k].requests
  }

  ghost function FailuresOf(m: map<string, Stats>): map<string, nat> {
    map k | k in m :: m[k].failures
  }

  lemma BumpStatsSums(m: map<string, Stats>, k: string, failed: bool)
    ensures Sum(RequestsOf(BumpStats(m, k, failed))) == Sum(RequestsOf(m)) + 1
    ensures Sum(FailuresOf(BumpStats(m, k, failed))) == Sum(FailuresOf(m)) + One(failed)
  {
    var b := BumpStats(m, k, failed);
    assert RequestsOf(b) == Bump(RequestsOf(m), k);
    BumpSums(RequestsOf(m), k);
    SumWithout(FailuresOf(b), k);
    assert FailuresOf(b) - {k} == FailuresOf(m) - {k};
    if k in m {
      SumWithout(FailuresOf(m), k);
    } else {
      assert FailuresOf(m) - {k} == FailuresOf(m);
    }
  }

  ghost predicate CountersConserved(r: Report) {
    && r.requests == Sum(r.classes) == Sum(r.codes)
    && r.failures == At(r.classes, ClientError) + At(r.classes, ServerError)
  }

  ghost predicate AddsUp(m: map<string, Stats>, requests: nat, failures: nat) {
    requests == Sum(RequestsOf(m)) && failures == Sum(FailuresOf(m))
  }

  ghost predicate Conserved(r: Report) {
    CountersConserved(r) && AddsUp(r.services, r.requests, r.failures) && AddsUp(r.paths, r.requests, r.failures)
  }

  lemma EmptyIsConserved(W: Window)
    requires ValidWindow(W)
    ensures Conserved(Empty(W))
  {
    var none: map<string, Stats> := map[];
    assert RequestsOf(none) == map[] && FailuresOf(none) == map[];
  }

  lemma CountersConserve(W: Window, r: Report, row: Row)
    requires ValidWindow(W) && CountersConserved(r) && Counted(W, row)
    ensures CountersConserved(Add(W, r, row))
  {
    BumpSums(r.classes, ClassOf(row.status));
    BumpSums(r.codes, row.status);
  }

  lemma StatsConserve(m: map<string, Stats>, k: string, failed: bool, requests: nat, failures: nat)
    requires AddsUp(m, requests, failures)
    ensures AddsUp(BumpStats(m, k, failed), requests + 1, failures + One(failed))
  {
    BumpStatsSums(m, k, failed);
  }

  lemma AddConserves(W: Window, r: Report, row: Row)
    requires ValidWindow(W) && Conserved(r)
    ensures Conserved(Add(W, r, row))
  {
    if Counted(W, row) {
      CountersConserve(W, r, row);
      StatsConserve(r.services, Named(row.service), Failed(row), r.requests, r.failures);
      StatsConserve(r.paths, Named(row.path), Failed(row), r.requests, r.failures);
    }
  }

  /** Every breakdown of a report adds up to its totals, and the failures are the 4xx and the 5xx. */
  lemma {:induction false} ConservationTheorem(W: Window, rows: seq<Row>)
    requires ValidWindow(W)
    ensures Conserved(Build(W, rows))
  {
    if rows == [] {
      EmptyIsConserved(W);
    } else {
      ConservationTheorem(W, rows[..|rows| - 1]);
      AddConserves(W, Build(W, rows[..|rows| - 1]), rows[|rows| - 1]);
    }
  }
}
