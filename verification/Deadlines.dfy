/** Fixed-rate deadlines: closed forms that skip missed periods, and the loops they stand for. */
module Deadlines {
  import opened Common

  /** The deadline `k` periods after `first`. */
  function At(first: real, interval: real, k: int): real {
    first + k as real * interval
  }

  lemma AtNext(first: real, interval: real, k: int)
    ensures At(first, interval, k + 1) == At(first, interval, k) + interval
    ensures At(first + interval, interval, k) == At(first, interval, k + 1)
  {
  }

  lemma AtIsMonotone(first: real, interval: real, j: int, k: int)
    requires interval > 0.0
    ensures j <= k <==> At(first, interval, j) <= At(first, interval, k)
  {
    assert (k - j) as real * interval == k as real * interval - j as real * interval;
    if j <= k {
      assert (k - j) as real * interval >= 0.0;
    } else {
      assert (k - j) as real * interval < 0.0;
    }
  }

  /** Comparing a deadline with a time is comparing its number with a quotient. */
  lemma Quotient(first: real, interval: real, time: real, k: int)
    requires interval > 0.0
    ensures At(first, interval, k) <= time <==> k as real <= (time - first) / interval
    ensures At(first, interval, k) < time <==> k as real < (time - first) / interval
  {
    var q := (time - first) / interval;
    assert q * interval == time - first;
    if k as real <= q {
      assert k as real * interval <= q * interval;
    } else {
      assert k as real * interval > q * interval;
    }
    if k as real < q {
      assert k as real * interval < q * interval;
    } else {
      assert k as real * interval >= q * interval;
    }
  }

  // ----- The watchdog daemon ------------------------------------------------------------

  function AdvanceDeadline(previous: real, interval: real, current: real): real
    requires interval > 0.0
  {
    var deadline := previous + interval;
    if deadline > current then deadline
    else
      var missed := ((current - deadline) / interval).Floor + 1;
      deadline + missed as real * interval
  }

  /** The next deadline is the first one, at least one period on, that is still to come. */
  lemma AdvanceIsNextDeadline(previous: real, interval: real, current: real)
    requires interval > 0.0
    ensures AdvanceDeadline(previous, interval, current) > current
    ensures exists k: int :: k >= 1 && AdvanceDeadline(previous, interval, current) == At(previous, interval, k)
    ensures forall j: int :: j >= 1 && At(previous, interval, j) > current ==>
              AdvanceDeadline(previous, interval, current) <= At(previous, interval, j)
  {
    var deadline := previous + interval;
    var k := if deadline > current then 1 else ((current - deadline) / interval).Floor + 2;
    AtNext(previous, interval, k - 1);
    assert AdvanceDeadline(previous, interval, current) == At(previous, interval, k);
    Quotient(deadline, interval, current, k - 1);
    forall j: int | j >= 1 && At(previous, interval, j) > current
      ensures At(previous, interval, k) <= At(previous, interval, j)
    {
      AtNext(previous, interval, j - 1);
      Quotient(deadline, interval, current, j - 1);
      AtIsMonotone(previous, interval, k, j);
    }
  }

  // ----- The collector ------------------------------------------------------------------

  /** The first deadline after `deadline` that is not before `time`. */
  ghost predicate NextNotBefore(deadline: real, interval: real, time: real, next: real, skipped: nat) {
    && next == At(deadline, interval, skipped + 1)
    && next >= time
    && forall j: int :: 1 <= j <= skipped ==> At(deadline, interval, j) < time
  }

  ghost predicate Follows(deadline: real, interval: real, time: real, next: real) {
    exists skipped: nat :: NextNotBefore(deadline, interval, time, next, skipped)
  }

  /** Moves a deadline on by one period, and by further ones as long as it is before `current`. */
  method NextDeadline(deadline: real, interval: real, current: real) returns (next: real)
    requires interval > 0.0
    ensures MissedDeadlines(current, deadline, interval) >= 0
    ensures NextNotBefore(deadline, interval, current, next, MissedDeadlines(current, deadline, interval))
  {
    next := deadline + interval;
    ghost var skipped: nat := 0;
    AtNext(deadline, interval, 0);
    ghost var limit := Ceil((current - deadline) / interval);
    while next < current
      invariant next == At(deadline, interval, skipped + 1)
      invariant forall j: int :: 1 <= j <= skipped ==> At(deadline, interval, j) < current
      decreases limit - skipped
    {
      Quotient(deadline, interval, current, skipped + 1);
      AtNext(deadline, interval, skipped + 1);
      next := next + interval;
      skipped := skipped + 1;
    }
    SkippedIsMissed(deadline, interval, current, next, skipped);
  }

  /** The number of missed deadlines that is recorded for a cycle. */
  function MissedDeadlines(finished: real, deadline: real, interval: real): int
    requires interval > 0.0
  {
    var overrun := if finished - (deadline + interval) > 0.0 then finished - (deadline + interval) else 0.0;
    if overrun <= 0.0 then 0 else Ceil(overrun / interval)
  }

  /** What is recorded as missed is what the loop skips. */
  lemma SkippedIsMissed(deadline: real, interval: real, time: real, next: real, skipped: nat)
    requires interval > 0.0 && NextNotBefore(deadline, interval, time, next, skipped)
    ensures skipped == MissedDeadlines(time, deadline, interval)
  {
    var first := deadline + interval;
    AtNext(deadline, interval, skipped);
    Quotient(first, interval, time, skipped);
    if skipped > 0 {
      AtNext(deadline, interval, skipped - 1);
      assert At(deadline, interval, skipped) < time;
      Quotient(first, interval, time, skipped - 1);
      AtIsMonotone(first, interval, 0, skipped - 1);
    } else {
      assert At(first, interval, 0) == first;
    }
  }

  /** A cycle that is recorded before the loop looks at the clock records no more than the loop
      skips. */
  lemma RecordedBeforeSkipping(deadline: real, interval: real, finished: real, current: real)
    requires interval > 0.0 && finished <= current
    ensures MissedDeadlines(finished, deadline, interval) <= MissedDeadlines(current, deadline, interval)
  {
    var first := deadline + interval;
    if finished > first {
      DivMonotone(finished - first, current - first, interval);
    } else if current > first {
      DivMonotone(0.0, current - first, interval);
    }
  }

  lemma DivMonotone(a: real, b: real, d: real)
    requires a <= b && d > 0.0
    ensures a / d <= b / d
  {
    assert (b - a) / d >= 0.0;
    assert b / d == a / d + (b - a) / d;
  }

  /** The deadlines at which cycles of the given durations start. */
  method SchedulerTicks(start: real, interval: real, durations: seq<real>) returns (ticks: seq<real>)
    requires interval > 0.0
    ensures |ticks| == |durations| && (ticks != [] ==> ticks[0] == start)
    ensures forall i :: 0 < i < |ticks| ==>
              Follows(ticks[i - 1], interval, ticks[i - 1] + durations[i - 1], ticks[i])
  {
    ticks := [];
    var deadline := start;
    for n := 0 to |durations|
      invariant |ticks| == n && (n == 0 ==> deadline == start) && (n > 0 ==> ticks[0] == start)
      invariant forall i :: 0 < i < n ==>
                  Follows(ticks[i - 1], interval, ticks[i - 1] + durations[i - 1], ticks[i])
      invariant n > 0 ==>
                  Follows(ticks[n - 1], interval, ticks[n - 1] + durations[n - 1], deadline)
    {
      ticks := ticks + [deadline];
      var end := deadline + durations[n];
      var next := NextDeadline(deadline, interval, end);
      assert Follows(deadline, interval, end, next);
      deadline := next;
    }
  }
}
