/**
 The figures of a report in full: each is the number of logged rows with what its name says, told from
 their times, statuses and names alone.
 */
module ReportFigures {
  import opened Text
  import opened Arithmetic
  import opened Reports
  import opened ReportBuckets

  // ---------------------------------------------------------------------------
  // Counting is the size of a set of positions
  // ---------------------------------------------------------------------------

  lemma FigureIs(W: Window, rows: seq<Row>, figure: Figure, at: set<nat>)
    requires ValidWindow(W)
    requires forall i: nat :: i in at <==> i < |rows| && Claimed(W, figure, rows[i])
    ensures Shown(Build(W, rows), figure) == |at|
  {
    FiguresTheorem(W, rows, figure);
    CountIsSize(W, rows, figure, at);
  }

  lemma {:induction false} CountIsSize(W: Window, rows: seq<Row>, figure: Figure, at: set<nat>)
    requires forall i: nat :: i in at <==> i < |rows| && Claimed(W, figure, rows[i])
    ensures CountClaimed(W, rows, figure) == |at|
  {
    if rows == [] {
      assert at == {};
    } else {
      var n := |rows| - 1;
      var front := at - {n};
      assert forall i: nat :: i < n ==> rows[..n][i] == rows[i];
      CountIsSize(W, rows[..n], figure, front);
      assert at == if Claimed(W, figure, rows[n]) then front + {n} else front;
    }
  }

  lemma {:induction false} IntervalIs(W: Window, rows: seq<Row>, from: int, to: int, tally: Tally, at: set<nat>)
    requires forall i: nat :: i in at <==>
               i < |rows| && Counted(W, rows[i]) && from <= rows[i].created.value < to && Tallied(tally, rows[i])
    ensures Between(W, rows, from, to, tally) == |at|
  {
    if rows == [] {
      assert at == {};
    } else {
      var n := |rows| - 1;
      var front := at - {n};
      assert forall i: nat :: i < n ==> rows[..n][i] == rows[i];
      IntervalIs(W, rows[..n], from, to, tally, front);
      assert at == if n in at then front + {n} else front;
    }
  }

  // ---------------------------------------------------------------------------
  // Totals and breakdowns
  // ---------------------------------------------------------------------------

  /** The positions of the rows in the window. */
  ghost function InWindow(W: Window, rows: seq<Row>): set<nat> {
    set i: nat | i < |rows| && Counted(W, rows[i])
  }

  /** A row is in the window when its time can be read and is not before the last so many hours. */
  lemma WindowTheorem(W: Window, rows: seq<Row>)
    ensures forall i: nat :: i in InWindow(W, rows) <==>
              i < |rows| && rows[i].created.Some? && rows[i].created.value >= W.now - W.hours * 3_600_000_000
  {
  }

  /** The totals count the rows of the window; failures are those from 400 up. */
  lemma TotalsTheorem(W: Window, rows: seq<Row>)
    requires ValidWindow(W)
    ensures var r, counted := Build(W, rows), InWindow(W, rows);
            && r.requests == |counted|
            && r.failures == |set i | i in counted && rows[i].status >= 400|
            && r.hits == |set i | i in counted && rows[i].cacheHit|
  {
    var counted := InWindow(W, rows);
    FigureIs(W, rows, Total(Requests), counted);
    FigureIs(W, rows, Total(Failures), set i | i in counted && rows[i].status >= 400);
    FigureIs(W, rows, Total(Hits), set i | i in counted && rows[i].cacheHit);
  }

  lemma LastHourTheorem(W: Window, rows: seq<Row>)
    requires ValidWindow(W)
    ensures var r, counted := Build(W, rows), InWindow(W, rows);
            var recent := set i | i in counted && rows[i].created.value >= W.now - 3_600_000_000;
            && r.lastHour.requests == |recent|
            && r.lastHour.failures == |set i | i in recent && rows[i].status >= 400|
  {
    var counted := InWindow(W, rows);
    var recent := set i | i in counted && rows[i].created.value >= W.now - 3_600_000_000;
    FigureIs(W, rows, LastHour, recent);
    FigureIs(W, rows, LastHourFailures, set i | i in recent && rows[i].status >= 400);
  }

  /** The classes are the hundreds of the status: the failing ones. */
  lemma FailingClasses(W: Window, rows: seq<Row>)
    requires ValidWindow(W)
    ensures var r, counted := Build(W, rows), InWindow(W, rows);
            && At(r.classes, ServerError) == |set i | i in counted && 500 <= rows[i].status|
            && At(r.classes, ClientError) == |set i | i in counted && 400 <= rows[i].status < 500|
  {
    var counted := InWindow(W, rows);
    FigureIs(W, rows, OfClass(ServerError), set i | i in counted && 500 <= rows[i].status);
    FigureIs(W, rows, OfClass(ClientError), set i | i in counted && 400 <= rows[i].status < 500);
  }

  /** The other classes, the last one for everything below 200. */
  lemma OtherClasses(W: Window, rows: seq<Row>)
    requires ValidWindow(W)
    ensures var r, counted := Build(W, rows), InWindow(W, rows);
            && At(r.classes, Redirect) == |set i | i in counted && 300 <= rows[i].status < 400|
            && At(r.classes, Success) == |set i | i in counted && 200 <= rows[i].status < 300|
            && At(r.classes, Other) == |set i | i in counted && rows[i].status < 200|
  {
    var counted := InWindow(W, rows);
    FigureIs(W, rows, OfClass(Redirect), set i | i in counted && 300 <= rows[i].status < 400);
    FigureIs(W, rows, OfClass(Success), set i | i in counted && 200 <= rows[i].status < 300);
    FigureIs(W, rows, OfClass(Other), set i | i in counted && rows[i].status < 200);
  }

  lemma CodesTheorem(W: Window, rows: seq<Row>, status: int)
    requires ValidWindow(W)
    ensures At(Build(W, rows).codes, status) == |set i | i in InWindow(W, rows) && rows[i].status == status|
  {
    FigureIs(W, rows, Total(OfStatus(status)), set i | i in InWindow(W, rows) && rows[i].status == status);
  }

  /** Services are counted by their trimmed names, a blank one as a dash. */
  lemma ServicesTheorem(W: Window, rows: seq<Row>, name: string)
    requires ValidWindow(W)
    ensures var r, counted := Build(W, rows), InWindow(W, rows);
            var served := set i | i in counted && name == if Strip(rows[i].service) == "" then "-" else Strip(rows[i].service);
            (if name in r.services then r.services[name] else Stats(0, 0))
            == Stats(|served|, |set i | i in served && rows[i].status >= 400|)
  {
    var counted := InWindow(W, rows);
    var served := set i | i in counted && name == if Strip(rows[i].service) == "" then "-" else Strip(rows[i].service);
    FigureIs(W, rows, OfService(name), served);
    FigureIs(W, rows, FailuresOfService(name), set i | i in served && rows[i].status >= 400);
  }

  /** And so are paths. */
  lemma PathsTheorem(W: Window, rows: seq<Row>, name: string)
    requires ValidWindow(W)
    ensures var r, counted := Build(W, rows), InWindow(W, rows);
            var asked := set i | i in counted && name == if Strip(rows[i].path) == "" then "-" else Strip(rows[i].path);
            (if name in r.paths then r.paths[name] else Stats(0, 0))
            == Stats(|asked|, |set i | i in asked && rows[i].status >= 400|)
  {
    var counted := InWindow(W, rows);
    var asked := set i | i in counted && name == if Strip(rows[i].path) == "" then "-" else Strip(rows[i].path);
    FigureIs(W, rows, OfPath(name), asked);
    FigureIs(W, rows, FailuresOfPath(name), set i | i in asked && rows[i].status >= 400);
  }

  // ---------------------------------------------------------------------------
  // Buckets
  // ---------------------------------------------------------------------------

  /** With a size that divides the hour, a bucket counts the rows of the window from its start to its length later. */
  lemma BucketInFull(W: Window, rows: seq<Row>, start: int, status: int)
    requires ValidWindow(W) && 60 % W.minutes == 0 && start in Build(W, rows).buckets
    ensures var b, counted := Build(W, rows).buckets[start], InWindow(W, rows);
            var inside := set i | i in counted && start <= rows[i].created.value < start + W.minutes * 60_000_000;
            && b.requests == |inside|
            && b.failures == |set i | i in inside && rows[i].status >= 400|
            && b.hits == |set i | i in inside && rows[i].cacheHit|
            && At(b.codes, status) == |set i | i in inside && rows[i].status == status|
  {
    var counted := InWindow(W, rows);
    var inside := set i | i in counted && start <= rows[i].created.value < start + W.minutes * 60_000_000;
    OneTally(W, rows, start, Requests, inside);
    OneTally(W, rows, start, Failures, set i | i in inside && rows[i].status >= 400);
    OneTally(W, rows, start, Hits, set i | i in inside && rows[i].cacheHit);
    OneTally(W, rows, start, OfStatus(status), set i | i in inside && rows[i].status == status);
  }

  lemma OneTally(W: Window, rows: seq<Row>, start: int, tally: Tally, at: set<nat>)
    requires ValidWindow(W) && 60 % W.minutes == 0 && start in Build(W, rows).buckets
    requires forall i: nat :: i in at <==>
               i < |rows| && Counted(W, rows[i]) && start <= rows[i].created.value < start + Length(W) && Tallied(tally, rows[i])
    ensures Read(Build(W, rows).buckets[start], tally) == |at|
  {
    BucketCounts(W, rows, start, tally);
    var k: nat :| k < BucketCount(W) && BucketStart(W, k) == start;
    BucketTheorem(W, rows, k, tally);
    IntervalIs(W, rows, start, start + Length(W), tally, at);
  }

  /** The buckets are as many as it takes to cover the hours, end to end, and the last one holds the present. */
  lemma LayoutTheorem(W: Window, rows: seq<Row>) returns (n: nat, last: int)
    requires ValidWindow(W) && 60 % W.minutes == 0
    ensures (n - 1) * W.minutes < W.hours * 60 <= n * W.minutes
    ensures last <= W.now < last + W.minutes * 60_000_000 && last % (W.minutes * 60_000_000) == 0
    ensures forall start :: start in Build(W, rows).buckets <==>
              exists i: nat :: i < n && start == last - W.minutes * 60_000_000 * i
  {
    n, last := BucketCount(W), Current(W);
    CountCovers(W);
    var q := FloorIsMultiple(W.now, W.minutes);
    LengthIsPositive(W);
    QuotientIs(last, Length(W), q, 0);
    forall start
      ensures start in Build(W, rows).buckets <==> exists i: nat :: i < n && start == last - W.minutes * 60_000_000 * i
    {
      BucketCounts(W, rows, start, Requests);
      StartsBackwards(W, start);
    }
  }

  lemma CountCovers(W: Window)
    requires ValidWindow(W)
    ensures (BucketCount(W) - 1) * W.minutes < W.hours * 60 <= BucketCount(W) * W.minutes
  {
    var total := W.hours * 60 + W.minutes - 1;
    MinutesPerBucket1(total, W.minutes);
    var n := total / W.minutes;
    assert total == W.minutes * n + total % W.minutes;
    assert W.minutes * n == n * W.minutes && (n - 1) * W.minutes == n * W.minutes - W.minutes;
  }

  lemma StartsBackwards(W: Window, start: int)
    requires ValidWindow(W)
    ensures IsBucket(W, start) <==> exists i: nat :: i < BucketCount(W) && start == Current(W) - Length(W) * i
  {
    var n := BucketCount(W);
    if IsBucket(W, start) {
      var i: nat :| i < n && BucketStart(W, i) == start;
      Backwards(W, i);
      assert start == Current(W) - Length(W) * (n - 1 - i);
    }
    if i: nat :| i < n && start == Current(W) - Length(W) * i {
      Backwards(W, n - 1 - i);
      assert BucketStart(W, n - 1 - i) == start;
    }
  }

  lemma Backwards(W: Window, i: nat)
    requires ValidWindow(W) && i < BucketCount(W)
    ensures BucketStart(W, i) == Current(W) - Length(W) * (BucketCount(W) - 1 - i)
  {
    var n, length := BucketCount(W) - 1, Length(W);
    assert length * (n - i) == length * n - length * i;
  }

  /** Whatever the size, a time is rounded down within its hour, to the last whole minute that is a multiple of the size. */
  lemma FloorTheorem(t: int, minutes: nat) returns (hour: int, minute: nat)
    requires minutes >= 1
    ensures hour * 3_600_000_000 <= t < (hour + 1) * 3_600_000_000
    ensures BucketFloor(t, minutes) == hour * 3_600_000_000 + minute * 60_000_000 <= t
    ensures minute < 60 && minute % minutes == 0
    ensures t < hour * 3_600_000_000 + (minute + minutes) * 60_000_000
  {
    var m := t / MINUTE;
    hour := m / 60;
    var past := m % 60;
    minute := past - past % minutes;
    MinutesOf(t);
    assert past == minutes * (past / minutes) + past % minutes;
    QuotientIs(minute, minutes, past / minutes, 0);
  }
}
