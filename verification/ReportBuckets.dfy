/**
 The time buckets of a report: which rows they count, for which bucket sizes that is exactly the rows
 of the bucket's interval, and where the rows are that no bucket counts.
 */
module ReportBuckets {
  import opened Text
  import opened Arithmetic
  import opened Reports

  // ---------------------------------------------------------------------------
  // What a bucket counts
  // ---------------------------------------------------------------------------

  datatype Tally = Requests | Failures | Hits | OfStatus(status: int)

  predicate Tallied(tally: Tally, row: Row) {
    match tally
    case Requests => true
    case Failures => Failed(row)
    case Hits => row.cacheHit
    case OfStatus(status) => row.status == status
  }

  function Read(b: Bucket, tally: Tally): nat {
    match tally
    case Requests => b.requests
    case Failures => b.failures
    case Hits => b.hits
    case OfStatus(status) => At(b.codes, status)
  }

  predicate FallsIn(W: Window, row: Row, start: int)
    requires ValidWindow(W)
  {
    Counted(W, row) && BucketFloor(row.created.value, W.minutes) == start
  }

  /** How many rows of a kind are rounded down to a start. */
  function Rounded(W: Window, rows: seq<Row>, start: int, tally: Tally): nat
    requires ValidWindow(W)
  {
    if rows == [] then 0
    else
      var row := rows[|rows| - 1];
      Rounded(W, rows[..|rows| - 1], start, tally) + One(FallsIn(W, row, start) && Tallied(tally, row))
  }

  lemma {:induction false} EmptyBucketsHave(W: Window, n: nat, start: int)
    requires ValidWindow(W)
    ensures start in EmptyBuckets(W, n) <==> exists i: nat :: i < n && BucketStart(W, i) == start
    ensures start in EmptyBuckets(W, n) ==> EmptyBuckets(W, n)[start] == EMPTY_BUCKET
  {
    if n > 0 {
      EmptyBucketsHave(W, n - 1, start);
    }
  }

  ghost predicate IsBucket(W: Window, start: int)
    requires ValidWindow(W)
  {
    exists i: nat :: i < BucketCount(W) && BucketStart(W, i) == start
  }

  /** Each bucket counts the rows that are rounded down to its start, in all and by kind. */
  lemma {:induction false} BucketCounts(W: Window, rows: seq<Row>, start: int, tally: Tally)
    requires ValidWindow(W)
    ensures start in Build(W, rows).buckets <==> IsBucket(W, start)
    ensures IsBucket(W, start) ==> Read(Build(W, rows).buckets[start], tally) == Rounded(W, rows, start, tally)
  {
    EmptyBucketsHave(W, BucketCount(W), start);
    if rows != [] {
      BucketCounts(W, rows[..|rows| - 1], start, tally);
    }
  }

  // ---------------------------------------------------------------------------
  // Which interval that is
  // ---------------------------------------------------------------------------

  /** Rows of a kind in the half-open interval. */
  function Between(W: Window, rows: seq<Row>, from: int, to: int, tally: Tally): nat {
    if rows == [] then 0
    else
      var row := rows[|rows| - 1];
      Between(W, rows[..|rows| - 1], from, to, tally)
      + One(Counted(W, row) && from <= row.created.value < to && Tallied(tally, row))
  }

  lemma MinutesOf(t: int)
    ensures t == MINUTE * (t / MINUTE) + t % MINUTE && 0 <= t % MINUTE < MINUTE
  {
  }

  /** When the bucket size divides the hour, rounding down gives the last multiple of it. */
  lemma FloorIsMultiple(t: int, minutes: nat) returns (q: int)
    requires minutes >= 1 && 60 % minutes == 0
    ensures BucketFloor(t, minutes) == minutes * MINUTE * q
    ensures BucketFloor(t, minutes) <= t < BucketFloor(t, minutes) + minutes * MINUTE
  {
    var m, d := t / MINUTE, 60 / minutes;
    MinutesOf(t);
    assert 60 == minutes * d;
    assert d > 0;
    RemainderOfRemainder(m, minutes, d);
    q := m / minutes;
    assert m == minutes * q + m % minutes;
    FloorBounds(m, minutes, q, m % minutes, t % MINUTE);
  }

  lemma FloorBounds(m: int, minutes: nat, q: int, r: int, u: int)
    requires m == minutes * q + r && 0 <= r < minutes && 0 <= u < MINUTE
    ensures MINUTE * m - r * MINUTE == minutes * MINUTE * q
    ensures r * MINUTE + u < minutes * MINUTE
  {
    assert MINUTE * m == MINUTE * (minutes * q) + MINUTE * r;
    assert MINUTE * (minutes * q) == minutes * MINUTE * q;
    AtLeastOnce(MINUTE, minutes - r);
    assert MINUTE * (minutes - r) == minutes * MINUTE - r * MINUTE;
  }

  /** Multiples of a length whose intervals share a point are equal. */
  lemma SameMultiple(length: int, a: int, b: int, t: int)
    requires length > 0 && length * a <= t < length * a + length && length * b <= t < length * b + length
    ensures a == b
  {
    assert length * (a - b) == length * a - length * b;
    if a > b {
      AtLeastOnce(length, a - b);
    } else if a < b {
      AtLeastOnce(length, b - a);
    }
  }

  lemma LengthIsPositive(W: Window)
    requires ValidWindow(W)
    ensures Length(W) > 0
  {
  }

  /** Every start is a multiple of the bucket length. */
  lemma StartIsMultiple(W: Window, i: nat) returns (k: int)
    requires ValidWindow(W) && 60 % W.minutes == 0
    ensures BucketStart(W, i) == Length(W) * k
  {
    var q := FloorIsMultiple(W.now, W.minutes);
    var n := BucketCount(W) - 1;
    k := q - n + i;
    assert Length(W) * k == Length(W) * q - Length(W) * n + Length(W) * i;
  }

  lemma FloorIsStart(W: Window, t: int, i: nat)
    requires ValidWindow(W) && 60 % W.minutes == 0
    ensures BucketFloor(t, W.minutes) == BucketStart(W, i)
            <==> BucketStart(W, i) <= t < BucketStart(W, i) + Length(W)
  {
    var q := FloorIsMultiple(t, W.minutes);
    var k := StartIsMultiple(W, i);
    LengthIsPositive(W);
    if BucketStart(W, i) <= t < BucketStart(W, i) + Length(W) {
      SameMultiple(Length(W), q, k, t);
    }
  }

  lemma {:induction false} RoundedIsBetween(W: Window, rows: seq<Row>, i: nat, tally: Tally)
    requires ValidWindow(W) && 60 % W.minutes == 0
    ensures var start := BucketStart(W, i);
            Rounded(W, rows, start, tally) == Between(W, rows, start, start + Length(W), tally)
  {
    if rows != [] {
      RoundedIsBetween(W, rows[..|rows| - 1], i, tally);
      var row := rows[|rows| - 1];
      if row.created.Some? {
        FloorIsStart(W, row.created.value, i);
      }
    }
  }

  /** With a bucket size that divides the hour, a bucket's figures are those of its half-open interval. */
  lemma BucketTheorem(W: Window, rows: seq<Row>, i: nat, tally: Tally)
    requires ValidWindow(W) && 60 % W.minutes == 0 && i < BucketCount(W)
    ensures var start := BucketStart(W, i);
            && start in Build(W, rows).buckets
            && Read(Build(W, rows).buckets[start], tally) == Between(W, rows, start, start + Length(W), tally)
  {
    BucketCounts(W, rows, BucketStart(W, i), tally);
    RoundedIsBetween(W, rows, i, tally);
  }

  // ---------------------------------------------------------------------------
  // Which bucket sizes are exact
  // ---------------------------------------------------------------------------

  /** In every report with buckets of this size, every bucket counts exactly the rows of its interval. */
  ghost predicate ExactSize(minutes: nat) {
    forall W: Window, rows, i: nat, tally ::
      W.minutes == minutes && ValidWindow(W) && i < BucketCount(W) && BucketStart(W, i) in Build(W, rows).buckets ==>
        Read(Build(W, rows).buckets[BucketStart(W, i)], tally)
        == Between(W, rows, BucketStart(W, i), BucketStart(W, i) + Length(W), tally)
  }

  lemma NextToLast(W: Window)
    requires ValidWindow(W) && BucketCount(W) >= 2
    ensures BucketStart(W, BucketCount(W) - 2) == Current(W) - Length(W)
  {
    var n := BucketCount(W);
    assert Length(W) * (n - 1) == Length(W) * (n - 2) + Length(W);
  }

  /** A report in which a row lies in the interval of a bucket that does not count it. */
  lemma OddSizeMisses(minutes: nat)
    requires minutes >= 1 && 60 % minutes != 0
    ensures !ExactSize(minutes)
  {
    var W := Window(0, if minutes < 60 then 1 else minutes, minutes);
    if minutes < 60 {
      assert W.hours * 60 + minutes - 1 >= 2 * minutes;
      assert BucketCount(W) >= 2 by {
        if (W.hours * 60 + minutes - 1) / minutes < 2 {
          MinutesPerBucket(W.hours * 60 + minutes - 1, minutes);
        }
      }
    } else {
      QuotientIs(minutes * 60 + minutes - 1, minutes, 60, minutes - 1);
    }
    var i, start := BucketCount(W) - 2, -(minutes * MINUTE);
    assert MinuteOfHour(0) == 0 && Current(W) == 0;
    NextToLast(W);
    var t := if minutes % 60 == 0 then start + HOUR else start;
    MissedTime(minutes, t);
    var row := Row(Some(t), 200, "", "", false);
    assert [row][..0] == [];
    assert Rounded(W, [row], start, Requests) == Rounded(W, [], start, Requests) == 0;
    assert Between(W, [row], start, start + Length(W), Requests) == Between(W, [], start, start + Length(W), Requests) + 1;
    BucketCounts(W, [row], start, Requests);
    assert IsBucket(W, start);
  }

  lemma MinutesPerBucket(total: nat, minutes: nat)
    requires minutes >= 1 && total >= 2 * minutes
    ensures total / minutes >= 2
  {
    OneMore(total - minutes, minutes);
    OneMore(total - 2 * minutes, minutes);
  }

  lemma MissedTime(minutes: nat, t: int)
    requires minutes >= 1 && 60 % minutes != 0
    requires t == if minutes % 60 == 0 then -(minutes * MINUTE) + HOUR else -(minutes * MINUTE)
    ensures BucketFloor(t, minutes) != -(minutes * MINUTE)
  {
    var m: int := if minutes % 60 == 0 then 60 - minutes else 0 - minutes;
    QuotientIs(t, MINUTE, m, 0);
    if minutes % 60 == 0 {
      QuotientIs(m, 60, 1 - minutes / 60, 0);
    } else if minutes > 60 {
      QuotientIs(m, 60, -(minutes / 60) - 1, 60 - minutes % 60);
    } else {
      QuotientIs(m, 60, -1, 60 - minutes);
      OneMore(60 - minutes, minutes);
    }
  }

  /** The buckets are exact for the divisors of 60 and for no other size. */
  lemma SizeTheorem(minutes: nat)
    requires minutes >= 1
    ensures ExactSize(minutes) <==> 60 % minutes == 0
  {
    if 60 % minutes == 0 {
      forall W: Window, rows, i: nat, tally
        | W.minutes == minutes && ValidWindow(W) && i < BucketCount(W) && BucketStart(W, i) in Build(W, rows).buckets
        ensures Read(Build(W, rows).buckets[BucketStart(W, i)], tally)
                == Between(W, rows, BucketStart(W, i), BucketStart(W, i) + Length(W), tally)
      {
        BucketTheorem(W, rows, i, tally);
      }
    } else {
      OddSizeMisses(minutes);
    }
  }

  // ---------------------------------------------------------------------------
  // Rows that no bucket counts
  // ---------------------------------------------------------------------------

  /** The buckets reach back over the window, all but part of one bucket length. */
  lemma BucketsReachBack(W: Window)
    requires ValidWindow(W) && 60 % W.minutes == 0
    ensures FirstBucket(W) <= Cutoff(W) + Length(W)
  {
    var n, total := BucketCount(W), W.hours * 60 + W.minutes - 1;
    var q := FloorIsMultiple(W.now, W.minutes);
    MinutesPerBucket1(total, W.minutes);
    assert total == W.minutes * n + total % W.minutes;
    assert W.minutes * n >= W.hours * 60;
    Scaled(W.minutes, n, W.hours);
    assert Length(W) * (n - 1) == Length(W) * n - Length(W);
  }

  lemma MinutesPerBucket1(total: nat, minutes: nat)
    requires minutes >= 1 && total >= minutes
    ensures total / minutes >= 1
  {
    OneMore(total - minutes, minutes);
  }

  lemma Scaled(minutes: nat, n: nat, hours: nat)
    requires minutes * n >= hours * 60
    ensures minutes * MINUTE * n >= hours * HOUR
  {
    assert minutes * MINUTE * n == MINUTE * (minutes * n);
  }

  /**
   A row in the window is counted by a bucket exactly when it lies between the first and the current
   bucket; one that is too old for the buckets lies in the first bucket length of the window.
   */
  lemma LooseTheorem(W: Window, row: Row)
    requires ValidWindow(W) && 60 % W.minutes == 0 && Counted(W, row)
    ensures var t := row.created.value;
            && (IsBucket(W, BucketFloor(t, W.minutes)) <==> FirstBucket(W) <= t < Current(W) + Length(W))
            && (t < FirstBucket(W) ==> Cutoff(W) <= t < Cutoff(W) + Length(W))
  {
    var t, n, length := row.created.value, BucketCount(W), Length(W);
    BucketsReachBack(W);
    LengthIsPositive(W);
    var q := FloorIsMultiple(t, W.minutes);
    var c := FloorIsMultiple(W.now, W.minutes);
    StartAt(W, c, 0);
    if FirstBucket(W) <= t < Current(W) + length {
      NotLess(length, q, c - (n - 1), t);
      NotMore(length, q, c, t);
      StartAt(W, c, q - (c - (n - 1)));
    }
    if IsBucket(W, BucketFloor(t, W.minutes)) {
      var i: nat :| i < n && BucketStart(W, i) == BucketFloor(t, W.minutes);
      StartAt(W, c, i);
      Ordered(length, c - (n - 1), c - (n - 1) + i, c);
    }
  }

  lemma StartAt(W: Window, c: int, i: nat)
    requires ValidWindow(W) && Current(W) == Length(W) * c
    ensures BucketStart(W, i) == Length(W) * (c - (BucketCount(W) - 1) + i)
    ensures FirstBucket(W) == Length(W) * (c - (BucketCount(W) - 1))
  {
    var n, length := BucketCount(W) - 1, Length(W);
    assert length * (c - n + i) == length * c - length * n + length * i;
    assert length * (c - n) == length * c - length * n;
  }

  lemma Ordered(length: int, a: int, b: int, c: int)
    requires length > 0 && a <= b <= c
    ensures length * a <= length * b <= length * c
  {
    assert length * b == length * a + length * (b - a);
    assert length * c == length * b + length * (c - b);
  }

  lemma NotLess(length: int, q: int, k: int, t: int)
    requires length > 0 && length * k <= t < length * q + length
    ensures k <= q
  {
    assert length * (k - q) == length * k - length * q;
    if q < k {
      AtLeastOnce(length, k - q);
    }
  }

  lemma NotMore(length: int, q: int, k: int, t: int)
    requires length > 0 && length * q <= t < length * k + length
    ensures q <= k
  {
    NotLess(length, k, q, t);
  }

  ghost function BucketRequests(m: map<int, Bucket>): map<int, nat> {
    map start | start in m :: m[start].requests
  }

  /** How many rows of the window no bucket counts. */
  ghost function Loose(W: Window, rows: seq<Row>): nat
    requires ValidWindow(W)
  {
    if rows == [] then 0
    else
      var row := rows[|rows| - 1];
      Loose(W, rows[..|rows| - 1])
      + One(Counted(W, row) && !IsBucket(W, BucketFloor(row.created.value, W.minutes)))
  }

  lemma {:induction false} EmptyBucketsSum(W: Window, n: nat)
    requires ValidWindow(W)
    ensures Sum(BucketRequests(EmptyBuckets(W, n))) == 0
  {
    if n > 0 {
      EmptyBucketsSum(W, n - 1);
      var m, k := BucketRequests(EmptyBuckets(W, n - 1)), BucketStart(W, n - 1);
      var b := BucketRequests(EmptyBuckets(W, n));
      SumWithout(b, k);
      assert b - {k} == m - {k};
      if k in m {
        SumWithout(m, k);
      } else {
        assert m - {k} == m;
      }
    }
  }

  /** The buckets and the rows they miss add up to the total. */
  lemma {:induction false} BucketsConserve(W: Window, rows: seq<Row>)
    requires ValidWindow(W)
    ensures var r := Build(W, rows);
            r.requests == Sum(BucketRequests(r.buckets)) + Loose(W, rows)
  {
    if rows == [] {
      EmptyBucketsSum(W, BucketCount(W));
    } else {
      var front, row := rows[..|rows| - 1], rows[|rows| - 1];
      BucketsConserve(W, front);
      if Counted(W, row) {
        var start, prior := BucketFloor(row.created.value, W.minutes), Build(W, front).buckets;
        BucketCounts(W, front, start, Requests);
        if start in prior {
          assert BucketRequests(Build(W, rows).buckets) == Bump(BucketRequests(prior), start);
          BumpSums(BucketRequests(prior), start);
        }
      }
    }
  }

  // ---------------------------------------------------------------------------
  // The other figures
  // ---------------------------------------------------------------------------

  datatype Figure =
    | Total(tally: Tally)
    | LastHour
    | LastHourFailures
    | OfClass(statusClass: Class)
    | OfService(name: string)
    | FailuresOfService(name: string)
    | OfPath(name: string)
    | FailuresOfPath(name: string)

  /** The rows that a figure claims to count. */
  predicate Claimed(W: Window, figure: Figure, row: Row) {
    Counted(W, row) &&
    match figure
    case Total(tally) => Tallied(tally, row)
    case LastHour => row.created.value >= W.now - HOUR
    case LastHourFailures => row.created.value >= W.now - HOUR && Failed(row)
    case OfClass(c) => ClassOf(row.status) == c
    case OfService(name) => Named(row.service) == name
    case FailuresOfService(name) => Named(row.service) == name && Failed(row)
    case OfPath(name) => Named(row.path) == name
    case FailuresOfPath(name) => Named(row.path) == name && Failed(row)
  }

  function StatsAt(m: map<string, Stats>, name: string): Stats {
    if name in m then m[name] else Stats(0, 0)
  }

  function Shown(r: Report, figure: Figure): nat {
    match figure
    case Total(tally) => Read(Bucket(r.requests, r.failures, r.hits, r.codes), tally)
    case LastHour => r.lastHour.requests
    case LastHourFailures => r.lastHour.failures
    case OfClass(c) => At(r.classes, c)
    case OfService(name) => StatsAt(r.services, name).requests
    case FailuresOfService(name) => StatsAt(r.services, name).failures
    case OfPath(name) => StatsAt(r.paths, name).requests
    case FailuresOfPath(name) => StatsAt(r.paths, name).failures
  }

  function CountClaimed(W: Window, rows: seq<Row>, figure: Figure): nat {
    if rows == [] then 0
    else CountClaimed(W, rows[..|rows| - 1], figure) + One(Claimed(W, figure, rows[|rows| - 1]))
  }

  lemma AddShows(W: Window, r: Report, row: Row, figure: Figure)
    requires ValidWindow(W)
    ensures Shown(Add(W, r, row), figure) == Shown(r, figure) + One(Claimed(W, figure, row))
  {
  }

  /** Every figure of a report is the number of rows that it claims to count. */
  lemma {:induction false} FiguresTheorem(W: Window, rows: seq<Row>, figure: Figure)
    requires ValidWindow(W)
    ensures Shown(Build(W, rows), figure) == CountClaimed(W, rows, figure)
  {
    if rows != [] {
      FiguresTheorem(W, rows[..|rows| - 1], figure);
      AddShows(W, Build(W, rows[..|rows| - 1]), rows[|rows| - 1], figure);
    }
  }
}
