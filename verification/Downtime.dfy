/** The 24-hour outage report, and why it is exact: what it rebuilds from the event log and
    the open outage is the number of seconds the profile really spent down or recovering. */
module Downtime {
  import opened Common
  import opened WatchdogProtocol
  import opened WatchdogTheorems
  import Series

  const EVENT_RETENTION := 86400

  datatype Interval = Interval(start: int, end: int)

  // ----- What the report should say -----------------------------------------------------

  /** The health in force during second `s`: that of the last commit at or before it. */
  function VitalsAt(t: Trace, s: int): Vitals
    requires Legal(t)
  {
    match t
    case Start => FRESH_ROW.vitals
    case Then(past, _, now) => if now <= s then RowAfter(t).vitals else VitalsAt(past, s)
  }

  /** How many of the seconds from `lo` up to `hi` were spent down or recovering. */
  function DownSeconds(t: Trace, lo: int, hi: int): nat
    requires Legal(t)
    decreases hi - lo
  {
    if hi <= lo then 0
    else DownSeconds(t, lo, hi - 1) + if InOutage(VitalsAt(t, hi - 1)) then 1 else 0
  }

  predicate Monotone(t: Trace) {
    t.Start? || (Monotone(t.past) && (t.past.Then? ==> t.past.now <= t.now))
  }

  /** No commit of `t` is later than `s`. */
  predicate Until(t: Trace, s: int) {
    t.Then? ==> t.now <= s
  }

  // ----- What the report is computed from -----------------------------------------------

  /** The part of a completed outage that a closing event puts inside the report's window. */
  function Span(e: Event, cutoff: int, now: int): seq<Interval> {
    if e.code == Entered(Healthy) && e.outage.Some? && e.ts >= cutoff then
      Clip(Max(cutoff, e.ts - Max(0, e.outage.value)), Min(now, e.ts))
    else []
  }

  function Clip(start: int, end: int): seq<Interval> {
    if end > start then [Interval(start, end)] else []
  }

  function Completed(log: seq<Event>, cutoff: int, now: int): seq<Interval> {
    if log == [] then []
    else Completed(log[..|log| - 1], cutoff, now) + Span(log[|log| - 1], cutoff, now)
  }

  function Open(since: Option<int>, cutoff: int, now: int): seq<Interval> {
    if since.None? then [] else Clip(Max(cutoff, since.value), now)
  }

  function Outages(log: seq<Event>, since: Option<int>, now: int): seq<Interval> {
    Completed(log, now - EVENT_RETENTION, now) + Open(since, now - EVENT_RETENTION, now)
  }

  function Total(spans: seq<Interval>): int {
    if spans == [] then 0
    else Total(spans[..|spans| - 1]) + Max(0, spans[|spans| - 1].end - spans[|spans| - 1].start)
  }

  function Longest(spans: seq<Interval>): int {
    if spans == [] then 0
    else Max(Longest(spans[..|spans| - 1]), Max(0, spans[|spans| - 1].end - spans[|spans| - 1].start))
  }

  /** Non-empty, and each ends before the next begins. */
  predicate Disjoint(spans: seq<Interval>) {
    && (forall i :: 0 <= i < |spans| ==> spans[i].start < spans[i].end)
    && (forall i, j :: 0 <= i < j < |spans| ==> spans[i].end <= spans[j].start)
  }

  lemma {:induction false} TotalAppend(a: seq<Interval>, b: seq<Interval>)
    ensures Total(a + b) == Total(a) + Total(b)
  {
    if b == [] {
      assert a + b == a;
    } else {
      assert (a + b)[..|a + b| - 1] == a + b[..|b| - 1];
      TotalAppend(a, b[..|b| - 1]);
    }
  }

  lemma {:induction false} CompletedAppend(a: seq<Event>, b: seq<Event>, cutoff: int, now: int)
    ensures Completed(a + b, cutoff, now) == Completed(a, cutoff, now) + Completed(b, cutoff, now)
  {
    if b == [] {
      assert a + b == a;
    } else {
      assert (a + b)[..|a + b| - 1] == a + b[..|b| - 1];
      CompletedAppend(a, b[..|b| - 1], cutoff, now);
    }
  }

  predicate Closes(e: Event) {
    e.code == Entered(Healthy) && e.outage.Some?
  }

  lemma {:induction false} NothingCloses(es: seq<Event>, cutoff: int, now: int)
    requires forall e <- es :: !Closes(e)
    ensures Completed(es, cutoff, now) == []
  {
    if es != [] {
      assert !Closes(es[|es| - 1]);
      NothingCloses(es[..|es| - 1], cutoff, now);
    }
  }

  // ----- One commit at a time -----------------------------------------------------------

  lemma AdvanceCloses(v: Vitals, a: Vitals, at: int)
    requires InOutage(v) && a.health == Healthy && v.outageStartedAt.Some? && v.outageStartedAt.value <= at
    ensures var es := AdvanceEvents(v, a, at);
            && |es| > 0
            && (forall e <- es[..|es| - 1] :: !Closes(e))
            && Closes(es[|es| - 1]) && es[|es| - 1].ts == at
            && es[|es| - 1].outage == Some(at - v.outageStartedAt.value)
  {
  }

  /** What one commit closes: an outage that it ends, and nothing else. */
  lemma CommitCloses(r: Row, c: Cause, at: int, cutoff: int, now: int)
    requires Guard(r, c, at) && VitalsInOrder(r.vitals) && at <= now
    requires r.vitals.outageStartedAt.Some? ==> r.vitals.outageStartedAt.value <= at
    ensures Completed(Emitted(r, c, at), cutoff, now) ==
            if InOutage(r.vitals) && !InOutage(Written(r, c, at).vitals)
            then Clip(Max(cutoff, r.vitals.outageStartedAt.value), at) else []
  {
    var es := Emitted(r, c, at);
    if InOutage(r.vitals) && !InOutage(Written(r, c, at).vitals) {
      RecoveryCommitCloses(r, c, at, cutoff, now);
    } else {
      hide Written, Emitted;
      NoCloseWithoutRecovery(r, c, at);
      NothingCloses(es, cutoff, now);
    }
  }

  lemma RecoveryCommitCloses(r: Row, c: Cause, at: int, cutoff: int, now: int)
    requires Guard(r, c, at) && VitalsInOrder(r.vitals) && at <= now
    requires InOutage(r.vitals) && !InOutage(Written(r, c, at).vitals) && r.vitals.outageStartedAt.value <= at
    ensures Completed(Emitted(r, c, at), cutoff, now) == Clip(Max(cutoff, r.vitals.outageStartedAt.value), at)
  {
    hide Guard, Written, Emitted, CheckedVitals, AdvanceEvents, BegunEvents, ObservedEvents, Completed;
    RecoveryIsACheck(r, c, at);
    QuietStart(r, c, at);
    var a := CheckedVitals(r.vitals, c, at);
    var pre := BegunEvents(r, at) + ObservedEvents(r, c.seen, at);
    var es := AdvanceEvents(r.vitals, a, at);
    AdvanceCloses(r.vitals, a, at);
    NothingCloses(pre, cutoff, now);
    NothingCloses(es[..|es| - 1], cutoff, now);
    CompletedAppend(pre, es, cutoff, now);
    CompletedLast(es, cutoff, now);
  }

  lemma CompletedLast(es: seq<Event>, cutoff: int, now: int)
    requires es != []
    ensures Completed(es, cutoff, now) == Completed(es[..|es| - 1], cutoff, now) + Span(es[|es| - 1], cutoff, now)
  {
  }

  lemma RecoveryIsACheck(r: Row, c: Cause, at: int)
    requires Guard(r, c, at) && InOutage(r.vitals) && !InOutage(Written(r, c, at).vitals)
    ensures c.Check? && CheckedVitals(r.vitals, c, at).health == Healthy
    ensures Emitted(r, c, at) == BegunEvents(r, at) + ObservedEvents(r, c.seen, at)
                                 + AdvanceEvents(r.vitals, CheckedVitals(r.vitals, c, at), at)
  {
    if !c.Check? {
      OnlyChecksMoveHealth(r, c, at);
    }
    AdvanceTakesEdges(r.vitals, c.cfg, c.reached, at, c.jitter);
  }

  lemma QuietStart(r: Row, c: Cause, at: int)
    requires c.Check?
    ensures forall e <- BegunEvents(r, at) + ObservedEvents(r, c.seen, at) :: !Closes(e)
  {
  }

  lemma NoCloseWithoutRecovery(r: Row, c: Cause, at: int)
    requires Guard(r, c, at) && VitalsInOrder(r.vitals)
    requires InOutage(r.vitals) ==> InOutage(Written(r, c, at).vitals)
    ensures forall e <- Emitted(r, c, at) :: !Closes(e)
  {
    if !c.Check? {
      OnlyChecksMoveHealth(r, c, at);
    }
  }

  /** An outage that continues keeps its start; one that begins, begins now. */
  lemma OutageStart(r: Row, c: Cause, at: int)
    requires Guard(r, c, at) && VitalsInOrder(r.vitals)
    ensures var a := Written(r, c, at).vitals;
            InOutage(a) ==> a.outageStartedAt == if InOutage(r.vitals) then r.vitals.outageStartedAt else Some(at)
  {
  }

  lemma {:induction false} OutageStartedByNow(t: Trace)
    requires Legal(t) && Monotone(t)
    ensures RowAfter(t).vitals.outageStartedAt.Some? ==> t.Then? && RowAfter(t).vitals.outageStartedAt.value <= t.now
  {
    if t.Then? {
      OutageStartedByNow(t.past);
      ReachableRowIsStructural(t.past);
      ReachableRowIsStructural(t);
      OutageStart(RowAfter(t.past), t.cause, t.now);
    }
  }

  lemma {:induction false} DownSecondsBefore(t: Trace, lo: int, hi: int)
    requires Legal(t) && t.Then? && hi <= t.now
    ensures DownSeconds(t, lo, hi) == DownSeconds(t.past, lo, hi)
    decreases hi - lo
  {
    if lo < hi {
      DownSecondsBefore(t, lo, hi - 1);
    }
  }

  lemma {:induction false} DownSecondsAfter(t: Trace, lo: int, hi: int)
    requires Legal(t) && t.Then? && t.now <= hi
    ensures DownSeconds(t, lo, hi) ==
            DownSeconds(t.past, lo, t.now) + if InOutage(RowAfter(t).vitals) then Max(0, hi - Max(t.now, lo)) else 0
    decreases hi - t.now
  {
    if hi == t.now {
      DownSecondsBefore(t, lo, hi);
    } else {
      DownSecondsAfter(t, lo, hi - 1);
    }
  }

  lemma {:induction false} NeverDownAtStart(lo: int, hi: int)
    ensures DownSeconds(Start, lo, hi) == 0
    decreases hi - lo
  {
    if lo < hi {
      NeverDownAtStart(lo, hi - 1);
    }
  }

  function OpenLength(v: Vitals, cutoff: int, s: int): int {
    if v.outageStartedAt.None? then 0 else Max(0, s - Max(cutoff, v.outageStartedAt.value))
  }

  lemma TotalOfClip(start: int, end: int)
    ensures Total(Clip(start, end)) == Max(0, end - start)
  {
    if start < end {
      assert [Interval(start, end)][..0] == [];
      assert Total([]) == 0;
    }
  }

  /** One commit moves the open outage's time into the closed total, or lets it grow. */
  lemma CommitAddsUp(r: Row, c: Cause, at: int, cutoff: int, s: int, now: int)
    requires Guard(r, c, at) && VitalsInOrder(r.vitals) && VitalsInOrder(Written(r, c, at).vitals)
    requires r.vitals.outageStartedAt.Some? ==> r.vitals.outageStartedAt.value <= at
    requires at <= s <= now
    ensures var a := Written(r, c, at).vitals;
            Total(Completed(Emitted(r, c, at), cutoff, now)) + OpenLength(a, cutoff, s) ==
            OpenLength(r.vitals, cutoff, at) + if InOutage(a) then Max(0, s - Max(at, cutoff)) else 0
  {
    hide Written, Emitted;
    OutageStart(r, c, at);
    CommitCloses(r, c, at, cutoff, now);
    if InOutage(r.vitals) {
      TotalOfClip(Max(cutoff, r.vitals.outageStartedAt.value), at);
    }
    assert Total([]) == 0;
  }

  /** The report's arithmetic, at every moment from the last commit on. */
  lemma {:induction false} ReportAddsUp(t: Trace, cutoff: int, s: int, now: int)
    requires Legal(t) && Monotone(t) && Until(t, s) && s <= now
    ensures Total(Completed(LogAfter(t), cutoff, now)) + OpenLength(RowAfter(t).vitals, cutoff, s) ==
              DownSeconds(t, cutoff, s)
    decreases t
  {
    if t.Start? {
      NeverDownAtStart(cutoff, s);
    } else {
      hide Written, Emitted;
      var r := RowAfter(t.past);
      var es := Emitted(r, t.cause, t.now);
      ReportAddsUp(t.past, cutoff, t.now, now);
      DownSecondsAfter(t, cutoff, s);
      ReachableRowIsStructural(t.past);
      ReachableRowIsStructural(t);
      OutageStartedByNow(t.past);
      CommitAddsUp(r, t.cause, t.now, cutoff, s, now);
      CompletedAppend(LogAfter(t.past), es, cutoff, now);
      TotalAppend(Completed(LogAfter(t.past), cutoff, now), Completed(es, cutoff, now));
    }
  }

  predicate EndBy(spans: seq<Interval>, bound: int) {
    forall i :: 0 <= i < |spans| ==> spans[i].end <= bound
  }

  lemma DisjointAppend(spans: seq<Interval>, start: int, end: int)
    requires Disjoint(spans) && EndBy(spans, start)
    ensures Disjoint(spans + Clip(start, end)) && EndBy(spans + Clip(start, end), Max(start, end))
  {
  }

  /** Everything closed so far ended before the open outage began, or by `at` if none is open. */
  predicate ClosedBefore(spans: seq<Interval>, v: Vitals, cutoff: int, at: int) {
    Disjoint(spans) && EndBy(spans, Max(cutoff, if v.outageStartedAt.Some? then v.outageStartedAt.value else at))
  }

  lemma CommitKeepsDisjoint(spans: seq<Interval>, r: Row, c: Cause, before: int, at: int, cutoff: int, now: int)
    requires Guard(r, c, at) && VitalsInOrder(r.vitals) && VitalsInOrder(Written(r, c, at).vitals)
    requires r.vitals.outageStartedAt.Some? ==> r.vitals.outageStartedAt.value <= before
    requires before <= at <= now && ClosedBefore(spans, r.vitals, cutoff, before)
    ensures ClosedBefore(spans + Completed(Emitted(r, c, at), cutoff, now), Written(r, c, at).vitals, cutoff, at)
  {
    hide Written, Emitted;
    OutageStart(r, c, at);
    CommitCloses(r, c, at, cutoff, now);
    if InOutage(r.vitals) {
      DisjointAppend(spans, Max(cutoff, r.vitals.outageStartedAt.value), at);
    }
    assert spans + [] == spans;
  }

  /** Completed outages are disjoint and lie before the open one. */
  lemma {:induction false} CompletedAreDisjoint(t: Trace, cutoff: int, now: int)
    requires Legal(t) && Monotone(t) && Until(t, now) && t.Then?
    ensures ClosedBefore(Completed(LogAfter(t), cutoff, now), RowAfter(t).vitals, cutoff, t.now)
  {
    hide Written, Emitted;
    var r, es := RowAfter(t.past), Emitted(RowAfter(t.past), t.cause, t.now);
    ReachableRowIsStructural(t.past);
    ReachableRowIsStructural(t);
    OutageStartedByNow(t.past);
    var before := if t.past.Then? then t.past.now else t.now;
    if t.past.Then? {
      CompletedAreDisjoint(t.past, cutoff, now);
    }
    CommitKeepsDisjoint(Completed(LogAfter(t.past), cutoff, now), r, t.cause, before, t.now, cutoff, now);
    CompletedAppend(LogAfter(t.past), es, cutoff, now);
  }

  lemma {:induction false} DownSecondsBounded(t: Trace, lo: int, hi: int)
    requires Legal(t) && lo <= hi
    ensures DownSeconds(t, lo, hi) <= hi - lo
    decreases hi - lo
  {
    if lo < hi {
      DownSecondsBounded(t, lo, hi - 1);
    }
  }

  function Recent(cutoff: int): Event -> bool {
    (e: Event) => e.ts >= cutoff
  }

  /** The events of a log from a cutoff on. */
  function Since(log: seq<Event>, cutoff: int): seq<Event> {
    Series.Filter(log, Recent(cutoff))
  }

  /** Events too old for the window never matter to the report. */
  lemma {:induction false} OldEventsDoNotMatter(log: seq<Event>, cutoff: int, now: int)
    ensures Completed(Since(log, cutoff), cutoff, now) == Completed(log, cutoff, now)
  {
    if log != [] {
      var front, last := log[..|log| - 1], log[|log| - 1];
      OldEventsDoNotMatter(front, cutoff, now);
      if last.ts >= cutoff {
        assert (Since(front, cutoff) + [last])[..|Since(front, cutoff)|] == Since(front, cutoff);
      } else {
        assert Since(log, cutoff) == Since(front, cutoff);
      }
    }
  }

  lemma ReportFromParts(log: seq<Event>, kept: seq<Event>, v: Vitals, now: int, at: int)
    requires Since(kept, now - EVENT_RETENTION) == Since(log, now - EVENT_RETENTION)
    requires ClosedBefore(Completed(log, now - EVENT_RETENTION, now), v, now - EVENT_RETENTION, at)
    ensures var spans := Outages(kept, v.outageStartedAt, now);
            && Disjoint(spans)
            && Total(spans) ==
               Total(Completed(log, now - EVENT_RETENTION, now)) + OpenLength(v, now - EVENT_RETENTION, now)
  {
    hide Completed, Disjoint, EndBy, Total;
    var cutoff := now - EVENT_RETENTION;
    OldEventsDoNotMatter(log, cutoff, now);
    OldEventsDoNotMatter(kept, cutoff, now);
    var closed, open := Completed(log, cutoff, now), Open(v.outageStartedAt, cutoff, now);
    TotalAppend(closed, open);
    if v.outageStartedAt.Some? {
      TotalOfClip(Max(cutoff, v.outageStartedAt.value), now);
      DisjointAppend(closed, Max(cutoff, v.outageStartedAt.value), now);
    } else {
      assert closed + open == closed;
    }
  }

  /** The report is exact in every history whose clock never runs backwards, whichever events older
      than the window have been pruned: the intervals are disjoint, their total is the time
      spent down or recovering, and the 24-hour cap never binds. */
  lemma DowntimeIsExact(t: Trace, kept: seq<Event>, now: int)
    requires Legal(t) && Monotone(t) && Until(t, now)
    requires Since(kept, now - EVENT_RETENTION) == Since(LogAfter(t), now - EVENT_RETENTION)
    ensures var spans := Outages(kept, RowAfter(t).vitals.outageStartedAt, now);
            && Disjoint(spans)
            && Total(spans) == DownSeconds(t, now - EVENT_RETENTION, now)
            && Min(EVENT_RETENTION, Total(spans)) == Total(spans)
  {
    hide Legal, RowAfter, LogAfter, Outages, Total, Disjoint, DownSeconds;
    var cutoff := now - EVENT_RETENTION;
    ReportAddsUp(t, cutoff, now, now);
    DownSecondsBounded(t, cutoff, now);
    if t.Then? {
      CompletedAreDisjoint(t, cutoff, now);
    } else {
      NothingAtStart(t, cutoff, now);
    }
    ReportFromParts(LogAfter(t), kept, RowAfter(t).vitals, now, if t.Then? then t.now else now);
  }

  lemma NothingAtStart(t: Trace, cutoff: int, now: int)
    requires t.Start?
    ensures Legal(t) && ClosedBefore(Completed(LogAfter(t), cutoff, now), RowAfter(t).vitals, cutoff, now)
  {
  }

  predicate CoversSecond(spans: seq<Interval>, s: int) {
    exists i :: 0 <= i < |spans| && spans[i].start <= s < spans[i].end
  }

  lemma CoversAppend(a: seq<Interval>, b: seq<Interval>, s: int)
    ensures CoversSecond(a + b, s) <==> CoversSecond(a, s) || CoversSecond(b, s)
  {
    if CoversSecond(a, s) {
      var i :| 0 <= i < |a| && a[i].start <= s < a[i].end;
      assert (a + b)[i] == a[i];
    }
    if CoversSecond(b, s) {
      var i :| 0 <= i < |b| && b[i].start <= s < b[i].end;
      assert (a + b)[|a| + i] == b[i];
    }
  }

  lemma CoversClip(start: int, end: int, s: int)
    ensures CoversSecond(Clip(start, end), s) <==> start <= s < end
  {
    if start <= s < end {
      assert Clip(start, end)[0] == Interval(start, end);
    }
  }

  /** One commit: a second before it is reported after the commit exactly if it was before. */
  lemma CommitKeepsSeconds(r: Row, c: Cause, at: int, cutoff: int, s: int, now: int)
    requires Guard(r, c, at) && VitalsInOrder(r.vitals) && VitalsInOrder(Written(r, c, at).vitals)
    requires r.vitals.outageStartedAt.Some? ==> r.vitals.outageStartedAt.value <= at
    requires cutoff <= s < at <= now
    ensures var a := Written(r, c, at).vitals;
            (CoversSecond(Completed(Emitted(r, c, at), cutoff, now), s)
             || (a.outageStartedAt.Some? && a.outageStartedAt.value <= s)) <==>
            (r.vitals.outageStartedAt.Some? && r.vitals.outageStartedAt.value <= s)
  {
    hide Written, Emitted, Guard, Completed;
    OutageStart(r, c, at);
    CommitCloses(r, c, at, cutoff, now);
    if InOutage(r.vitals) {
      CoversClip(Max(cutoff, r.vitals.outageStartedAt.value), at, s);
    }
  }

  lemma EndedBefore(spans: seq<Interval>, bound: int, s: int)
    requires EndBy(spans, bound) && bound <= s
    ensures !CoversSecond(spans, s)
  {
  }

  /** A second of the window is in a reported interval exactly if the profile was down or recovering. */
  lemma {:induction false} SecondsAreExact(t: Trace, cutoff: int, s: int, now: int)
    requires Legal(t) && Monotone(t) && Until(t, now) && cutoff <= s < now
    ensures var since := RowAfter(t).vitals.outageStartedAt;
            (CoversSecond(Completed(LogAfter(t), cutoff, now), s) || (since.Some? && since.value <= s)) <==>
            InOutage(VitalsAt(t, s))
  {
    if t.Then? {
      hide Written, Emitted, Completed, CoversSecond;
      ReachableRowIsStructural(t.past);
      ReachableRowIsStructural(t);
      OutageStartedByNow(t.past);
      OutageStartedByNow(t);
      var r := RowAfter(t.past);
      if s < t.now {
        SecondsAreExact(t.past, cutoff, s, now);
        CommitKeepsSeconds(r, t.cause, t.now, cutoff, s, now);
        CompletedAppend(LogAfter(t.past), Emitted(r, t.cause, t.now), cutoff, now);
        CoversAppend(Completed(LogAfter(t.past), cutoff, now), Completed(Emitted(r, t.cause, t.now), cutoff, now), s);
      } else {
        CompletedAreDisjoint(t, cutoff, now);
        var v := RowAfter(t).vitals;
        if v.outageStartedAt.None? {
          EndedBefore(Completed(LogAfter(t), cutoff, now), Max(cutoff, t.now), s);
        }
      }
    } else {
      NothingCovered(t, cutoff, s, now);
    }
  }

  lemma NothingCovered(t: Trace, cutoff: int, s: int, now: int)
    requires t.Start?
    ensures Legal(t) && !CoversSecond(Completed(LogAfter(t), cutoff, now), s)
    ensures RowAfter(t).vitals.outageStartedAt.None?
    ensures !InOutage(VitalsAt(t, s))
  {
  }

  /** The reported intervals hold exactly the seconds of the last 24 hours spent down or recovering,
      whichever older events were pruned. */
  lemma OutagesAreExact(t: Trace, kept: seq<Event>, now: int, s: int)
    requires Legal(t) && Monotone(t) && Until(t, now) && now - EVENT_RETENTION <= s < now
    requires Since(kept, now - EVENT_RETENTION) == Since(LogAfter(t), now - EVENT_RETENTION)
    ensures CoversSecond(Outages(kept, RowAfter(t).vitals.outageStartedAt, now), s) <==> InOutage(VitalsAt(t, s))
  {
    hide Completed, CoversSecond, Since, LogAfter, RowAfter, VitalsAt, Legal;
    var cutoff, since := now - EVENT_RETENTION, RowAfter(t).vitals.outageStartedAt;
    OldEventsDoNotMatter(LogAfter(t), cutoff, now);
    OldEventsDoNotMatter(kept, cutoff, now);
    SecondsAreExact(t, cutoff, s, now);
    CoversAppend(Completed(kept, cutoff, now), Open(since, cutoff, now), s);
    if since.Some? {
      CoversClip(Max(cutoff, since.value), now, s);
    } else {
      NothingOpen(s);
    }
  }

  lemma NothingOpen(s: int)
    ensures !CoversSecond([], s)
  {
  }

  /** The longest outage is one of the intervals' lengths and no interval is longer. */
  lemma {:induction false} LongestIsLongest(spans: seq<Interval>)
    requires Disjoint(spans)
    ensures forall i :: 0 <= i < |spans| ==> spans[i].end - spans[i].start <= Longest(spans)
    ensures if spans == [] then Longest(spans) == 0
            else exists i :: 0 <= i < |spans| && spans[i].end - spans[i].start == Longest(spans)
  {
    if spans != [] {
      var front, last := spans[..|spans| - 1], spans[|spans| - 1];
      LongestIsLongest(front);
      assert spans[|spans| - 1] == last;
      if Longest(spans) != last.end - last.start {
        var i :| 0 <= i < |front| && front[i].end - front[i].start == Longest(front);
        assert spans[i] == front[i];
      }
    }
  }

  /** The events that end an outage of the window. */
  function Endings(log: seq<Event>, cutoff: int, now: int): nat {
    if log == [] then 0
    else
      var e := log[|log| - 1];
      Endings(log[..|log| - 1], cutoff, now) +
      if && e.code == Entered(Healthy) && e.outage.Some? && e.outage.value > 0
         && e.ts > cutoff && now > cutoff && now > e.ts - e.outage.value then 1 else 0
  }

  /** There is one completed interval per event that ends an outage inside the window. */
  lemma {:induction false} OneIntervalPerEnding(log: seq<Event>, cutoff: int, now: int)
    ensures |Completed(log, cutoff, now)| == Endings(log, cutoff, now)
  {
    if log != [] {
      OneIntervalPerEnding(log[..|log| - 1], cutoff, now);
    }
  }

  // ----- The store's methods ------------------------------------------------------------

  predicate SortedByTime(log: seq<Event>) {
    forall i, j :: 0 <= i < j < |log| ==> log[i].ts <= log[j].ts
  }

  lemma EmittedNow(r: Row, c: Cause, now: int)
    requires Guard(r, c, now)
    ensures forall e <- Emitted(r, c, now) :: e.ts == now
  {
    if c.Settle? {
      assert forall e <- SettledEvents(r.vitals, r.service.pendingAction.value, c.how, now) :: e.ts == now;
    }
  }

  lemma {:induction false} LogIsSorted(t: Trace)
    requires Legal(t) && Monotone(t)
    ensures SortedByTime(LogAfter(t))
    ensures forall e <- LogAfter(t) :: t.Then? && e.ts <= t.now
  {
    if t.Then? {
      LogIsSorted(t.past);
      EmittedNow(RowAfter(t.past), t.cause, t.now);
    }
  }

  /** The 24-hour report of one profile. */
  method Summarize(log: seq<Event>, outageStartedAt: Option<int>, now: int)
    returns (outages: seq<Interval>, total: int, longest: int, lastOutageAt: Option<int>)
    ensures outages == Outages(log, outageStartedAt, now)
    ensures total == Min(24 * 3600, Total(outages))
    ensures longest == Min(24 * 3600, Longest(outages))
    ensures lastOutageAt == if outages == [] then None else Some(outages[|outages| - 1].start)
  {
    var cutoff := now - EVENT_RETENTION;
    outages := CompletedOutages(log, cutoff, now);
    if outageStartedAt.Some? {
      var start := Max(cutoff, outageStartedAt.value);
      if now > start {
        outages := outages + [Interval(start, now)];
      }
    }
    hide Completed;
    total, longest := Measure(outages);
    total := Min(EVENT_RETENTION, total);
    longest := Min(EVENT_RETENTION, longest);
    lastOutageAt := if outages == [] then None else Some(outages[|outages| - 1].start);
  }

  /** The outages whose end is in the log, cut to the window. */
  method CompletedOutages(log: seq<Event>, cutoff: int, now: int) returns (outages: seq<Interval>)
    ensures outages == Completed(log, cutoff, now)
  {
    outages := [];
    for i := 0 to |log|
      invariant outages == Completed(log[..i], cutoff, now)
    {
      assert log[..i + 1][..i] == log[..i];
      var e := log[i];
      if e.code == Entered(Healthy) && e.outage.Some? && e.ts >= cutoff {
        var end := Min(now, e.ts);
        var start := e.ts - Max(0, e.outage.value);
        var overlapStart := Max(cutoff, start);
        if end > overlapStart {
          outages := outages + [Interval(overlapStart, end)];
        }
      }
    }
    assert log[..|log|] == log;
  }

  method Measure(outages: seq<Interval>) returns (total: int, longest: int)
    ensures total == Total(outages) && longest == Longest(outages)
  {
    total, longest := 0, 0;
    for i := 0 to |outages|
      invariant total == Total(outages[..i]) && longest == Longest(outages[..i])
    {
      assert outages[..i + 1][..i] == outages[..i];
      var duration := Max(0, outages[i].end - outages[i].start);
      total := total + duration;
      longest := Max(longest, duration);
    }
    assert outages[..|outages|] == outages;
  }

  /** The position of the oldest expired event, the first of its second. */
  method OldestExpired(log: seq<Event>, cutoff: int) returns (found: Option<nat>)
    ensures found.None? <==> forall e <- log :: e.ts >= cutoff
    ensures found.Some? ==> && found.value < |log| && log[found.value].ts < cutoff
                            && (forall e <- log :: log[found.value].ts <= e.ts)
                            && (forall j :: 0 <= j < found.value ==> log[found.value].ts < log[j].ts)
  {
    found := None;
    for n := 0 to |log|
      invariant found.None? <==> forall j :: 0 <= j < n ==> log[j].ts >= cutoff
      invariant found.Some? ==> && found.value < n && log[found.value].ts < cutoff
                                && (forall j :: 0 <= j < n ==> log[found.value].ts <= log[j].ts)
                                && (forall j :: 0 <= j < found.value ==> log[found.value].ts < log[j].ts)
    {
      if log[n].ts < cutoff && (found.None? || log[n].ts < log[found.value].ts) {
        found := Some(n);
      }
    }
    forall e | e in log
      ensures found.None? ==> e.ts >= cutoff
      ensures found.Some? ==> log[found.value].ts <= e.ts
    {
      var j :| 0 <= j < |log| && log[j] == e;
    }
  }

  /** What deleting expired events, oldest first, leaves. */
  ghost predicate Thinned(log: seq<Event>, kept: seq<Event>, gone: seq<Event>, cutoff: int) {
    && multiset(log) == multiset(kept) + multiset(gone)
    && (forall e <- gone :: e.ts < cutoff)
    && (forall e, k :: e in gone && k in kept ==> e.ts <= k.ts)
    && (forall c :: c >= cutoff ==> Since(kept, c) == Since(log, c))
  }

  lemma ThinnedOne(log: seq<Event>, kept: seq<Event>, gone: seq<Event>, cutoff: int, i: nat)
    requires Thinned(log, kept, gone, cutoff) && i < |kept| && kept[i].ts < cutoff
    requires forall e <- kept :: kept[i].ts <= e.ts
    ensures Thinned(log, kept[..i] + kept[i + 1..], gone + [kept[i]], cutoff)
  {
    var left, x := kept[..i] + kept[i + 1..], kept[i];
    assert kept == kept[..i] + [x] + kept[i + 1..];
    assert multiset(kept) == multiset(left) + multiset{x};
    assert forall e <- left :: e in kept;
    forall c | c >= cutoff
      ensures Since(left, c) == Since(log, c)
    {
      RemovingOld(kept, i, c);
      assert Since(kept, c) == Since(log, c);
    }
    hide Since;
    assert forall e <- gone + [x] :: e in gone || e == x;
  }

  lemma RemovingOld(kept: seq<Event>, i: nat, cutoff: int)
    requires i < |kept| && kept[i].ts < cutoff
    ensures Since(kept[..i] + kept[i + 1..], cutoff) == Since(kept, cutoff)
  {
    assert kept == kept[..i] + [kept[i]] + kept[i + 1..];
    Series.FilterAppend(kept[..i] + [kept[i]], kept[i + 1..], Recent(cutoff));
    Series.FilterOne(kept[..i], kept[i], Recent(cutoff));
    Series.FilterAppend(kept[..i], kept[i + 1..], Recent(cutoff));
  }

  /** One batch: deletes up to `limit` expired events. */
  method DeleteOldest(log: seq<Event>, cutoff: int, limit: nat, ghost all: seq<Event>, ghost before: seq<Event>)
    returns (kept: seq<Event>, count: nat, ghost gone: seq<Event>)
    requires Thinned(all, log, before, cutoff)
    ensures Thinned(all, kept, gone, cutoff) && |gone| == |before| + count
    ensures count <= limit && (count < limit ==> forall e <- kept :: e.ts >= cutoff)
  {
    hide Thinned;
    kept, count, gone := log, 0, before;
    while count < limit
      invariant count <= limit && Thinned(all, kept, gone, cutoff) && |gone| == |before| + count
    {
      var found := OldestExpired(kept, cutoff);
      if found.None? {
        return;
      }
      ThinnedOne(all, kept, gone, cutoff, found.value);
      gone := gone + [kept[found.value]];
      kept := kept[..found.value] + kept[found.value + 1..];
      count := count + 1;
    }
  }

  /** Deletes the oldest expired events, `batchSize` at a time, stopping after a short batch or
      `maxBatches` of them. */
  method PruneEvents(log: seq<Event>, now: int, retention: nat, batchSize: nat, maxBatches: nat)
    returns (kept: seq<Event>, deleted: nat, ghost gone: seq<Event>)
    ensures Thinned(log, kept, gone, now - retention) && deleted == |gone| <= batchSize * maxBatches
    ensures deleted < batchSize * maxBatches ==> forall e <- kept :: e.ts >= now - retention
  {
    var cutoff := now - retention;
    kept, deleted, gone := log, 0, [];
    NothingThinned(log, cutoff);
    hide Thinned;
    var batches := 0;
    while batches < maxBatches
      invariant batches <= maxBatches && Thinned(log, kept, gone, cutoff) && deleted == |gone| == batches * batchSize
    {
      var count;
      kept, count, gone := DeleteOldest(kept, cutoff, batchSize, log, gone);
      deleted := deleted + count;
      BatchesGrow(batches, maxBatches, batchSize);
      if count < batchSize {
        return;
      }
      batches := batches + 1;
    }
  }

  lemma NothingThinned(log: seq<Event>, cutoff: int)
    ensures Thinned(log, log, [], cutoff)
  {
  }

  lemma BatchesGrow(batches: nat, maxBatches: nat, batchSize: nat)
    requires batches < maxBatches
    ensures batches * batchSize + batchSize == (batches + 1) * batchSize <= maxBatches * batchSize
  {
    assert (batches + 1) * batchSize <= maxBatches * batchSize;
  }
}
