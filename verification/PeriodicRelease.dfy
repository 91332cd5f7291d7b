/** Periodic tasks: the scheduler's scan over the release grid of one task, with bounded catch-up. Times are whole
    nanoseconds. */
module PeriodicRelease {

  const MAXIMUM_CATCH_UP: nat := 1024

  /** The point of the grid after k periods. */
  function GridPoint(start: int, period: nat, k: nat): int {
    start + k * period
  }

  /** next_release and periodic_releases_skipped of one task. */
  datatype Cursor = Cursor(nextRelease: int, skipped: nat)

  /** The number of grid points from next on that lie at or before now. */
  function Passed(next: int, period: nat, now: int): nat
    requires period > 0
  {
    if next > now then 0 else (now - next) / period + 1
  }

  function Least(a: nat, b: nat): nat {
    if a < b then a else b
  }

  function Emissions(next: int, period: nat, count: nat): (due: seq<int>)
    ensures |due| == count
  {
    seq(count, i requires 0 <= i < count => GridPoint(next, period, i))
  }

  /** One scan as a whole: all points passed leave the cursor; the first 1024 are emitted and the rest are counted. */
  function ScanOf(cursor: Cursor, period: nat, now: int): (Cursor, seq<int>)
    requires period > 0
  {
    var passed := Passed(cursor.nextRelease, period, now);
    var emitted := Least(passed, MAXIMUM_CATCH_UP);
    (Cursor(GridPoint(cursor.nextRelease, period, passed), cursor.skipped + (passed - emitted)),
     Emissions(cursor.nextRelease, period, emitted))
  }

  lemma PassedBounds(next: int, period: nat, now: int)
    requires period > 0
    ensures var k := Passed(next, period, now);
            && (next <= now ==> GridPoint(next, period, k) - period <= now < GridPoint(next, period, k))
            && (next > now ==> k == 0)
  {
    if next <= now {
      var q := (now - next) / period;
      assert now - next == q * period + (now - next) % period;
      assert (q + 1) * period == q * period + period;
    }
  }

  lemma PassedStep(next: int, period: nat, now: int)
    requires period > 0 && next <= now
    ensures Passed(next, period, now) == Passed(next + period, period, now) + 1
  {
    var d := now - next;
    if next + period <= now {
      DivideLess(d, period);
    } else {
      assert 0 <= d < period;
      SmallQuotient(d, period);
    }
  }

  lemma SmallQuotient(d: nat, period: nat)
    requires d < period
    ensures d / period == 0
  {
  }

  lemma DivideLess(d: nat, period: nat)
    requires 0 < period <= d
    ensures d / period == (d - period) / period + 1
  {
    var q, r := (d - period) / period, (d - period) % period;
    assert d == (q + 1) * period + r;
    UniqueQuotient(d, period, q + 1, r);
  }

  lemma MulStep(a: nat, b: nat, period: nat)
    requires a < b
    ensures a * period + period <= b * period
  {
    assert b * period == a * period + period + (b - a - 1) * period;
    NatProduct(b - a - 1, period);
  }

  lemma NatProduct(a: nat, b: nat)
    ensures a * b >= 0
  {
  }

  lemma UniqueQuotient(d: nat, period: nat, q: nat, r: nat)
    requires 0 < period && d == q * period + r && r < period
    ensures d / period == q
  {
    var p, m := d / period, d % period;
    assert d == p * period + m && 0 <= m < period;
    if p < q {
      MulStep(p, q, period);
    } else if q < p {
      MulStep(q, p, period);
    }
  }

  /** The loops of SchedulerLoop for one periodic task. */
  method Scan(cursor: Cursor, period: nat, now: int) returns (after: Cursor, due: seq<int>)
    requires period > 0
    ensures (after, due) == ScanOf(cursor, period, now)
  {
    var next, skipped := cursor.nextRelease, cursor.skipped;
    var catchUp: nat := 0;
    due := [];
    ghost var passed := Passed(next, period, now);
    while next <= now && catchUp < MAXIMUM_CATCH_UP
      invariant catchUp <= MAXIMUM_CATCH_UP && next == GridPoint(cursor.nextRelease, period, catchUp)
      invariant passed == Passed(next, period, now) + catchUp
      invariant due == Emissions(cursor.nextRelease, period, catchUp)
      decreases MAXIMUM_CATCH_UP - catchUp
    {
      PassedStep(next, period, now);
      due := due + [next];
      next := next + period;
      catchUp := catchUp + 1;
    }
    if catchUp == MAXIMUM_CATCH_UP && next <= now {
      var behind := now - next;
      var missed := behind / period + 1;
      skipped := skipped + missed;
      assert catchUp * period + missed * period == (catchUp + missed) * period;
      next := next + period * missed;
    }
    after := Cursor(next, skipped);
  }

  // ----- whole runs -----

  /** The scans of one task at the given times; the releases emitted, in order. */
  function Scans(cursor: Cursor, period: nat, times: seq<int>): (Cursor, seq<int>)
    requires period > 0
    decreases |times|
  {
    if times == [] then (cursor, [])
    else
      var (next, due) := ScanOf(cursor, period, times[0]);
      var (last, more) := Scans(next, period, times[1..]);
      (last, due + more)
  }

  predicate OnGrid(start: int, period: nat, from: nat, to: nat, indices: seq<nat>, due: seq<int>) {
    && |indices| == |due|
    && (forall i :: 0 <= i < |due| ==> from <= indices[i] < to && due[i] == GridPoint(start, period, indices[i]))
    && (forall i, j :: 0 <= i < j < |due| ==> indices[i] < indices[j])
  }

  function Range(from: nat, count: nat): (r: seq<nat>)
    ensures |r| == count
  {
    seq(count, i requires 0 <= i < count => from + i)
  }

  lemma GridAdd(start: int, period: nat, j: nat, k: nat)
    ensures GridPoint(GridPoint(start, period, j), period, k) == GridPoint(start, period, j + k)
  {
    assert (j + k) * period == j * period + k * period;
  }

  lemma ScanOnGrid(start: int, period: nat, from: nat, cursor: Cursor, now: int)
    requires period > 0 && cursor.nextRelease == GridPoint(start, period, from)
    ensures var passed, (after, due) := Passed(cursor.nextRelease, period, now), ScanOf(cursor, period, now);
            && after.nextRelease == GridPoint(start, period, from + passed) && now < after.nextRelease
            && |due| == (if passed < 1024 then passed else 1024) && |due| + (after.skipped - cursor.skipped) == passed
            && OnGrid(start, period, from, from + passed, Range(from, |due|), due)
            && (cursor.nextRelease <= now + period ==> after.nextRelease <= now + period)
  {
    var passed := Passed(cursor.nextRelease, period, now);
    PassedBounds(cursor.nextRelease, period, now);
    GridAdd(start, period, from, passed);
    var due := ScanOf(cursor, period, now).1;
    forall i | 0 <= i < |due|
      ensures due[i] == GridPoint(start, period, from + i)
    {
      GridAdd(start, period, from, i);
    }
  }

  predicate Steady(times: seq<int>) {
    forall i, j :: 0 <= i < j < |times| ==> times[i] <= times[j]
  }

  /** However often and whenever the scheduler scans: every release emitted is a point of the grid, no point is emitted
      twice or out of order, and each of the points passed is either emitted once or counted once as skipped. If moreover
      the clock is steady and the next release was at most one period away from the first scan, as Start and AddTask leave
      it, then after the last scan it lies within one period after it. */
  lemma {:induction false} GridIsCovered(start: int, period: nat, from: nat, cursor: Cursor, times: seq<int>)
    returns (to: nat, indices: seq<nat>)
    requires period > 0 && cursor.nextRelease == GridPoint(start, period, from)
    ensures var (last, due) := Scans(cursor, period, times);
            && from <= to && last.nextRelease == GridPoint(start, period, to)
            && OnGrid(start, period, from, to, indices, due)
            && |due| + (last.skipped - cursor.skipped) == to - from
            && (forall i :: 0 <= i < |times| ==> times[i] < last.nextRelease)
            && (Steady(times) && times != [] && cursor.nextRelease <= times[0] + period ==>
                  times[|times| - 1] < last.nextRelease <= times[|times| - 1] + period)
    decreases |times|
  {
    hide ScanOf, Passed, GridPoint;
    if times == [] {
      to, indices := from, [];
    } else {
      var now := times[0];
      var (next, due) := ScanOf(cursor, period, now);
      var middle := from + Passed(cursor.nextRelease, period, now);
      ScanOnGrid(start, period, from, cursor, now);
      var rest: seq<nat>;
      to, rest := GridIsCovered(start, period, middle, next, times[1..]);
      indices := Range(from, |due|) + rest;
      GridMonotone(start, period, middle, to);
      forall i | 0 <= i < |times|
        ensures times[i] < Scans(cursor, period, times).0.nextRelease
      {
        if i > 0 {
          assert times[i] == times[1..][i - 1];
        }
      }
    }
  }

  lemma GridMonotone(start: int, period: nat, j: nat, k: nat)
    requires j <= k
    ensures GridPoint(start, period, j) <= GridPoint(start, period, k)
  {
    assert k * period == j * period + (k - j) * period;
  }
}
