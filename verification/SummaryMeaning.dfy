/** What a window summary says, second by second and point by point, without the segments and running
    figures it is computed from. */
module SummaryMeaning {
  import opened Common
  import opened Series
  import opened Summaries

  // ----- The value that stands at a second ----------------------------------------------

  /** The last point at or before a second. */
  function LastAt(ps: seq<Point>, t: int): Option<Point> {
    if ps == [] then None
    else if ps[|ps| - 1].ts <= t then Some(ps[|ps| - 1])
    else LastAt(ps[..|ps| - 1], t)
  }

  /** The largest gap over which a value is credible. */
  function Gap(w: Window): real {
    w.cadence * w.multiplier
  }

  /** The value standing at second `t`: that of the last point at or before it, if it has an available
      number, not for longer than the largest credible gap, and from before the window only if
      the window begins within that gap. */
  function Standing(w: Window, ps: seq<Point>, t: int): Option<real> {
    match LastAt(ps, t)
    case None => None
    case Some(p) =>
      if p.numeric.None? || p.quality == Unavailable then None
      else if t >= Trunc(p.ts as real + Gap(w)) then None
      else if p.ts < w.start && (w.start - p.ts) as real > Gap(w) then None
      else p.numeric
  }

  /** How many seconds from `lo` up to `hi` have a standing value that the cut counts. */
  function SecondsStanding(w: Window, ps: seq<Point>, c: Cut, lo: int, hi: int): nat
    decreases hi - lo
  {
    if hi <= lo then 0
    else
      var v := Standing(w, ps, hi - 1);
      SecondsStanding(w, ps, c, lo, hi - 1) + if v.Some? && Counts(c, v.value) then 1 else 0
  }

  /** The standing values of those seconds, added up. */
  function SumStanding(w: Window, ps: seq<Point>, lo: int, hi: int): real
    decreases hi - lo
  {
    if hi <= lo then 0.0
    else
      var v := Standing(w, ps, hi - 1);
      SumStanding(w, ps, lo, hi - 1) + if v.Some? then v.value else 0.0
  }

  lemma {:induction false} StandingSplit(w: Window, ps: seq<Point>, c: Cut, lo: int, mid: int, hi: int)
    requires lo <= mid <= hi
    ensures SecondsStanding(w, ps, c, lo, hi) == SecondsStanding(w, ps, c, lo, mid) + SecondsStanding(w, ps, c, mid, hi)
    ensures SumStanding(w, ps, lo, hi) == SumStanding(w, ps, lo, mid) + SumStanding(w, ps, mid, hi)
    decreases hi - mid
  {
    if mid < hi {
      StandingSplit(w, ps, c, lo, mid, hi - 1);
    }
  }

  lemma {:induction false} NoneStanding(w: Window, ps: seq<Point>, c: Cut, lo: int, hi: int)
    requires forall t :: lo <= t < hi ==> Standing(w, ps, t).None?
    ensures SecondsStanding(w, ps, c, lo, hi) == 0 && SumStanding(w, ps, lo, hi) == 0.0
    decreases hi - lo
  {
    if lo < hi {
      NoneStanding(w, ps, c, lo, hi - 1);
    }
  }

  lemma {:induction false} AllStanding(w: Window, ps: seq<Point>, c: Cut, lo: int, hi: int, v: real)
    requires lo <= hi && forall t :: lo <= t < hi ==> Standing(w, ps, t) == Some(v)
    ensures SecondsStanding(w, ps, c, lo, hi) == (if Counts(c, v) then hi - lo else 0)
    ensures SumStanding(w, ps, lo, hi) == v * (hi - lo) as real
    decreases hi - lo
  {
    if lo < hi {
      AllStanding(w, ps, c, lo, hi - 1, v);
      assert v * (hi - lo) as real == v * (hi - 1 - lo) as real + v;
    }
  }

  lemma {:induction false} LastAtIs(ps: seq<Point>, n: nat, t: int)
    requires Sorted(ps) && n <= |ps| && (n < |ps| ==> t < ps[n].ts) && (n > 0 ==> ps[n - 1].ts <= t)
    ensures LastAt(ps, t) == if n == 0 then None else Some(ps[n - 1])
    decreases |ps|
  {
    if n < |ps| {
      assert ps[n].ts <= ps[|ps| - 1].ts;
      LastAtIs(ps[..|ps| - 1], n, t);
    }
  }

  /** Where the first `n` points stop mattering, inside the window. */
  function Frontier(w: Window, ps: seq<Point>, n: nat): int
    requires n <= |ps|
  {
    Max(w.start, Min(w.end, if n < |ps| then ps[n].ts else w.end))
  }

  /** A point's value may stand at all, and until when. */
  predicate MayStand(w: Window, p: Point) {
    && p.numeric.Some? && p.quality != Unavailable
    && !(p.ts < w.start && (w.start - p.ts) as real > Gap(w))
  }

  function StandsUntil(w: Window, p: Point): int {
    Trunc(p.ts as real + Gap(w))
  }

  lemma StandingIs(w: Window, ps: seq<Point>, t: int, p: Point)
    requires LastAt(ps, t) == Some(p)
    ensures Standing(w, ps, t) == if MayStand(w, p) && t < StandsUntil(w, p) then p.numeric else None
  {
    hide Gap, Trunc, LastAt;
  }

  lemma SecondsIs(w: Window, p: Point, next: int)
    ensures Seconds(w, p, next) ==
            if MayStand(w, p) then Max(0, Min(Min(w.end, next), StandsUntil(w, p)) - Max(w.start, p.ts)) else 0
  {
    assert w.MaxGap() == Gap(w);
    hide Gap, Trunc, Window.MaxGap;
  }

  /** The seconds between a point and the next all have that point as their last. */
  lemma BetweenPoints(w: Window, ps: seq<Point>, n: nat)
    requires Sorted(ps) && 0 < n <= |ps| && w.start <= w.end
    ensures Frontier(w, ps, n - 1) <= Frontier(w, ps, n)
    ensures forall t :: Frontier(w, ps, n - 1) <= t < Frontier(w, ps, n) ==> LastAt(ps, t) == Some(ps[n - 1])
  {
    assert n < |ps| ==> ps[n - 1].ts <= ps[n].ts;
    forall t | Frontier(w, ps, n - 1) <= t < Frontier(w, ps, n)
      ensures LastAt(ps, t) == Some(ps[n - 1])
    {
      LastAtIs(ps, n, t);
    }
  }

  /** A point's value stands for exactly its segment. */
  lemma SegmentStands(w: Window, ps: seq<Point>, n: nat, c: Cut)
    requires Sorted(ps) && 0 < n <= |ps| && w.start <= w.end
    ensures Frontier(w, ps, n - 1) <= Frontier(w, ps, n)
    ensures var p, seconds := ps[n - 1], Seconds(w, ps[n - 1], NextTime(w, ps, n - 1));
            var lo, hi := Frontier(w, ps, n - 1), Frontier(w, ps, n);
            && SecondsStanding(w, ps, c, lo, hi) ==
               (if seconds > 0 && p.numeric.Some? && Counts(c, p.numeric.value) then seconds else 0)
            && SumStanding(w, ps, lo, hi) == Area(w, p, NextTime(w, ps, n - 1))
  {
    hide Sorted, LastAt, Standing, Seconds, MayStand, StandsUntil, SecondsStanding, SumStanding;
    var p, lo, hi := ps[n - 1], Frontier(w, ps, n - 1), Frontier(w, ps, n);
    BetweenPoints(w, ps, n);
    SecondsIs(w, p, NextTime(w, ps, n - 1));
    forall t | lo <= t < hi
      ensures Standing(w, ps, t) == if MayStand(w, p) && t < StandsUntil(w, p) then p.numeric else None
    {
      StandingIs(w, ps, t, p);
    }
    if !MayStand(w, p) {
      NoneStanding(w, ps, c, lo, hi);
    } else {
      ValueMayStand(w, p);
      var mid := Max(lo, Min(hi, StandsUntil(w, p)));
      StandingSplit(w, ps, c, lo, mid, hi);
      AllStanding(w, ps, c, lo, mid, p.numeric.value);
      NoneStanding(w, ps, c, mid, hi);
      assert Seconds(w, p, NextTime(w, ps, n - 1)) == mid - lo;
    }
  }

  lemma ValueMayStand(w: Window, p: Point)
    requires MayStand(w, p)
    ensures p.numeric.Some?
  {
  }

  lemma {:induction false} SegmentsStand(w: Window, ps: seq<Point>, n: nat, c: Cut)
    requires Sorted(ps) && n <= |ps| && w.start <= w.end
    ensures w.start <= Frontier(w, ps, n)
    ensures SecondsStanding(w, ps, All, w.start, Frontier(w, ps, n)) == SecondsOf(w, ps, n)
    ensures SumStanding(w, ps, w.start, Frontier(w, ps, n)) == AreaOf(w, ps, n)
    ensures SecondsStanding(w, ps, c, w.start, Frontier(w, ps, n)) as real == Mass(Weights(w, ps, n), c)
  {
    hide Sorted, Standing, Seconds, SecondsStanding, SumStanding, Area, Frontier;
    if n == 0 {
      BeforeFirst(w, ps, c);
      BeforeFirst(w, ps, All);
    } else {
      SegmentsStand(w, ps, n - 1, c);
      SegmentStands(w, ps, n, c);
      SegmentStands(w, ps, n, All);
      SecondsOfValue(w, ps[n - 1], NextTime(w, ps, n - 1));
      StandingSplit(w, ps, c, w.start, Frontier(w, ps, n - 1), Frontier(w, ps, n));
      StandingSplit(w, ps, All, w.start, Frontier(w, ps, n - 1), Frontier(w, ps, n));
      WeightsMass(w, ps, n, c);
    }
  }

  lemma BeforeFirst(w: Window, ps: seq<Point>, c: Cut)
    requires Sorted(ps) && w.start <= w.end
    ensures w.start <= Frontier(w, ps, 0)
    ensures SecondsStanding(w, ps, c, w.start, Frontier(w, ps, 0)) == 0
    ensures SumStanding(w, ps, w.start, Frontier(w, ps, 0)) == 0.0
    ensures Mass(Weights(w, ps, 0), c) == 0.0
  {
    hide Gap, Trunc;
    forall t | w.start <= t < Frontier(w, ps, 0)
      ensures Standing(w, ps, t).None?
    {
      if ps != [] {
        LastAtIs(ps, 0, t);
      }
    }
    NoneStanding(w, ps, c, w.start, Frontier(w, ps, 0));
  }

  lemma WeightsMass(w: Window, ps: seq<Point>, n: nat, c: Cut)
    requires 0 < n <= |ps|
    ensures var p, seconds := ps[n - 1], Seconds(w, ps[n - 1], NextTime(w, ps, n - 1));
            Mass(Weights(w, ps, n), c) == Mass(Weights(w, ps, n - 1), c) +
              (if seconds > 0 && p.numeric.Some? && Counts(c, p.numeric.value) then seconds as real else 0.0)
  {
    hide Seconds, Mass;
    var seconds := Seconds(w, ps[n - 1], NextTime(w, ps, n - 1));
    SecondsOfValue(w, ps[n - 1], NextTime(w, ps, n - 1));
    if seconds > 0 {
      MassOne(Weights(w, ps, n - 1), (ps[n - 1].numeric.value, seconds as real), c);
    } else {
      assert Weights(w, ps, n) == Weights(w, ps, n - 1);
    }
  }

  /** The weighted seconds are the seconds of the window at which a value stands, the average is the
      mean of the standing values over them, and the weights of the percentile count them. */
  lemma WeighingMeans(w: Window, ps: seq<Point>, c: Cut)
    requires Sorted(ps) && w.start <= w.end
    ensures SecondsOf(w, ps, |ps|) == SecondsStanding(w, ps, All, w.start, w.end)
    ensures AreaOf(w, ps, |ps|) == SumStanding(w, ps, w.start, w.end)
    ensures Mass(Weights(w, ps, |ps|), c) == SecondsStanding(w, ps, c, w.start, w.end) as real
  {
    SegmentsStand(w, ps, |ps|, c);
  }

  /** The reported percentile: at fewer than 95 of 100 seconds with a value a lesser value stands, and at
      no fewer than 95 of 100 that value or a lesser one. */
  lemma PercentileMeans(w: Window, ps: seq<Point>, v: real)
    requires Sorted(ps) && w.start <= w.end && IsPercentile(Weights(w, ps, |ps|), 0.95, v)
    ensures SecondsStanding(w, ps, Below(v), w.start, w.end) as real
          < 0.95 * SecondsStanding(w, ps, All, w.start, w.end) as real
         <= SecondsStanding(w, ps, UpTo(v), w.start, w.end) as real
  {
    WeighingMeans(w, ps, Below(v));
    WeighingMeans(w, ps, UpTo(v));
    WeighingMeans(w, ps, All);
  }

  /** For gauges and rates the summary weighs standing values; other metrics weigh nothing. */
  lemma AverageMeans(w: Window, ps: seq<Point>)
    requires ps != [] && Sorted(ps) && w.start <= w.end && w.cadence > 0.0
    ensures var s, seconds := BatchSummary(w, ps), SecondsStanding(w, ps, All, w.start, w.end);
            if s.kind == Gauge || s.kind == Rate
            then && s.weightedSeconds == seconds
                 && s.average == (if seconds > 0 then Some(Mean(SumStanding(w, ps, w.start, w.end), seconds)) else None)
            else s.weightedSeconds == 0 && s.average.None?
  {
    hide SecondsStanding, SumStanding, SecondsOf, AreaOf, Outline, Mean, Sorted;
    WeighingMeans(w, ps, All);
    OutlineIsBare(w, ps);
  }

  lemma MeanMeans(total: real, seconds: int)
    requires seconds > 0
    ensures Mean(total, seconds) * seconds as real == total
  {
  }

  /** Truncation toward zero, as the conversion to an integer has it. */
  lemma TruncMeans(x: real)
    ensures x >= 0.0 ==> Trunc(x) as real <= x < (Trunc(x) + 1) as real
    ensures x < 0.0 ==> (Trunc(x) - 1) as real < x <= Trunc(x) as real
  {
  }

  // ----- Counts -------------------------------------------------------------------------

  datatype Figure = Samples | UnavailableOnes | Resets | Gaps

  /** What one point adds to a figure. */
  function Part(w: Window, p: Point, k: Figure): int {
    if p.ts < w.start || w.end <= p.ts then 0
    else
      match k
      case Samples => 1
      case UnavailableOnes => if p.quality == Unavailable || (p.numeric.None? && p.text.None?) then 1 else 0
      case Resets => p.reset
      case Gaps => p.gap
  }

  function AddUp(w: Window, ps: seq<Point>, k: Figure): int {
    if ps == [] then 0 else AddUp(w, ps[..|ps| - 1], k) + Part(w, ps[|ps| - 1], k)
  }

  /** Samples, unavailable points, resets and gaps are counted over the points inside the window. */
  lemma {:induction false} CountsMean(w: Window, ps: seq<Point>, kind: Kind)
    ensures var s := StatsOf(Inside(w, ps), kind);
            && s.samples == AddUp(w, ps, Samples) && s.unavailable == AddUp(w, ps, UnavailableOnes)
            && s.resets == AddUp(w, ps, Resets) && s.gaps == AddUp(w, ps, Gaps)
  {
    hide *;
    if ps == [] {
      NothingCounted(w, kind);
    } else {
      var front, p := ps[..|ps| - 1], ps[|ps| - 1];
      assert ps == front + [p];
      CountsMean(w, front, kind);
      AddUpOne(w, front, p);
      InsideOne(w, front, p);
      CountsStep(w, Inside(w, front), p, kind);
    }
  }

  lemma NothingCounted(w: Window, kind: Kind)
    ensures StatsOf(Inside(w, []), kind) == NO_STATS && forall k: Figure :: AddUp(w, [], k) == 0
    ensures NO_STATS.samples == NO_STATS.unavailable == NO_STATS.resets == NO_STATS.gaps == 0
  {
  }

  lemma AddUpOne(w: Window, ps: seq<Point>, p: Point)
    ensures forall k: Figure :: AddUp(w, ps + [p], k) == AddUp(w, ps, k) + Part(w, p, k)
  {
    assert (ps + [p])[..|ps|] == ps;
  }

  lemma InsideOne(w: Window, ps: seq<Point>, p: Point)
    ensures Inside(w, ps + [p]) == if w.Holds(p) then Inside(w, ps) + [p] else Inside(w, ps)
  {
    FilterOne(ps, p, Holding(w));
  }

  lemma CountsStep(w: Window, inside: seq<Point>, p: Point, kind: Kind)
    ensures var s, t := StatsOf(inside, kind), StatsOf(if w.Holds(p) then inside + [p] else inside, kind);
            && t.samples == s.samples + Part(w, p, Samples)
            && t.unavailable == s.unavailable + Part(w, p, UnavailableOnes)
            && t.resets == s.resets + Part(w, p, Resets) && t.gaps == s.gaps + Part(w, p, Gaps)
  {
    hide StatsOf, Lower, Upper, Worse, Ranged, SupportsRange;
    if w.Holds(p) {
      StatsExtend(inside, p, kind);
    }
  }

  // ----- Times, latest value, quality and extremes --------------------------------------

  predicate IsInside(w: Window, p: Point) {
    w.start <= p.ts && p.ts < w.end
  }

  lemma InsideMembers(w: Window, ps: seq<Point>)
    ensures forall p :: p in Inside(w, ps) <==> p in ps && IsInside(w, p)
  {
    FilterMembers(ps, Holding(w));
  }

  /** The position of the last point inside the window. */
  function LastInside(w: Window, ps: seq<Point>): Option<Point> {
    if ps == [] then None
    else if IsInside(w, ps[|ps| - 1]) then Some(ps[|ps| - 1])
    else LastInside(w, ps[..|ps| - 1])
  }

  lemma {:induction false} LastInsideIs(w: Window, ps: seq<Point>)
    ensures var inside := Inside(w, ps);
            LastInside(w, ps) == if inside == [] then None else Some(inside[|inside| - 1])
  {
    if ps != [] {
      LastInsideIs(w, ps[..|ps| - 1]);
    }
  }

  /** First and last timestamp bound those inside, and the latest value is the last point's number, or
      its text if it has no number. */
  lemma TimesMean(w: Window, ps: seq<Point>, kind: Kind)
    requires Sorted(ps)
    ensures var s, last := StatsOf(Inside(w, ps), kind), LastInside(w, ps);
            && (s.first.Some? <==> exists p <- ps :: IsInside(w, p)) && (s.last.Some? <==> s.first.Some?)
            && (s.first.Some? <==> last.Some?)
            && (forall p <- ps :: IsInside(w, p) && s.first.Some? ==> s.first.value <= p.ts <= s.last.value)
            && (s.first.Some? ==> exists p <- ps :: IsInside(w, p) && p.ts == s.first.value)
            && (last.Some? ==> && s.last == Some(last.value.ts)
                               && (last.value.numeric.Some? ==> s.latest == Some(Number(last.value.numeric.value)))
                               && (last.value.numeric.None? && last.value.text.Some? ==>
                                     s.latest == Some(Text(last.value.text.value)))
                               && (last.value.numeric.None? && last.value.text.None? ==> s.latest.None?))
  {
    var inside := Inside(w, ps);
    InsideMembers(w, ps);
    LastInsideIs(w, ps);
    SortedInside(w, ps);
    hide Filter;
    if inside != [] {
      assert inside[0] in inside && inside[|inside| - 1] in inside;
      forall p | p in ps && IsInside(w, p)
        ensures inside[0].ts <= p.ts <= inside[|inside| - 1].ts
      {
        assert p in inside;
      }
    }
  }

  lemma {:induction false} SortedInside(w: Window, ps: seq<Point>)
    requires Sorted(ps)
    ensures Sorted(Inside(w, ps)) && forall p <- Inside(w, ps) :: p in ps
  {
    if ps != [] {
      var front, p := ps[..|ps| - 1], ps[|ps| - 1];
      SortedInside(w, front);
      assert forall q <- front :: q.ts <= p.ts;
    }
  }

  /** The qualities in order, best first. */
  lemma QualitiesInOrder()
    ensures Rank(Exact) < Rank(Derived) < Rank(Estimated) < Rank(Unavailable)
  {
  }

  /** Quality is the worst inside; minimum and maximum are attained by available numbers inside and bound
      them, for gauges and rates only. */
  lemma ExtremesMean(w: Window, ps: seq<Point>, kind: Kind)
    requires exists p <- ps :: IsInside(w, p)
    ensures var s := StatsOf(Inside(w, ps), kind);
            && (forall p <- ps :: IsInside(w, p) ==> Rank(p.quality) <= Rank(s.quality))
            && (exists p <- ps :: IsInside(w, p) && p.quality == s.quality)
            && (kind != Gauge && kind != Rate ==> s.minimum.None? && s.maximum.None?)
            && (kind == Gauge || kind == Rate ==>
                  && (s.minimum.Some? <==> s.maximum.Some?)
                  && (forall p <- ps :: IsInside(w, p) && p.quality != Unavailable && p.numeric.Some? ==>
                        s.minimum.Some? && s.minimum.value <= p.numeric.value <= s.maximum.value)
                  && (s.minimum.Some? ==>
                        exists p <- ps :: IsInside(w, p) && p.quality != Unavailable && p.numeric == s.minimum)
                  && (s.maximum.Some? ==>
                        exists p <- ps :: IsInside(w, p) && p.quality != Unavailable && p.numeric == s.maximum))
  {
    var inside := Inside(w, ps);
    InsideMembers(w, ps);
    var p :| p in ps && IsInside(w, p);
    assert p in inside;
    WorstIsWorst(inside);
    ExtremesAreExtreme(inside);
    hide Filter, Minimum, Maximum, WorstQuality;
  }

  // ----- Expectation, coverage, age, unit -----------------------------------------------

  /** The time that a number of cadences fills. */
  function Filled(w: Window, m: int): real {
    m as real * w.cadence
  }

  /** The least whole number, at least one, of cadences that fill the window. */
  lemma ExpectedMeans(w: Window)
    requires w.cadence > 0.0 && w.start <= w.end
    ensures Expected(w) >= 1 && Filled(w, Expected(w)) >= (w.end - w.start) as real
    ensures forall m :: 1 <= m < Expected(w) ==> Filled(w, m) < (w.end - w.start) as real
  {
    var a, n := (w.end - w.start) as real, Expected(w);
    var q := a / w.cadence;
    TimesDivisor(a, w.cadence);
    assert q <= n as real;
    Scale(q, n as real, w.cadence);
    forall m | 1 <= m < n
      ensures Filled(w, m) < a
    {
      assert m as real < q;
      ScaleLess(m as real, q, w.cadence);
    }
  }

  lemma Scale(a: real, b: real, d: real)
    requires a <= b && d > 0.0
    ensures a * d <= b * d
  {
    var x := b - a;
    assert x * d >= 0.0;
    assert b * d == (a + x) * d == a * d + x * d;
  }

  lemma ScaleLess(a: real, b: real, d: real)
    requires a < b && d > 0.0
    ensures a * d < b * d
  {
    var x := b - a;
    assert x * d > 0.0;
    assert b * d == (a + x) * d == a * d + x * d;
  }

  /** Coverage is the share of the expected samples, no more than all of them. */
  lemma CoverageMeans(samples: nat, expected: int)
    requires expected >= 1
    ensures Coverage(samples, expected) * expected as real == Min(samples, expected) as real
  {
    var n, d := samples as real, expected as real;
    TimesDivisor(n, d);
    if samples < expected {
      SmallShare(n / d, d, n);
    } else {
      LargeShare(n / d, d, n);
    }
  }

  lemma TimesDivisor(n: real, d: real)
    requires d > 0.0
    ensures n / d * d == n
  {
  }

  lemma SmallShare(q: real, d: real, n: real)
    requires d > 0.0 && q * d == n && n < d
    ensures q < 1.0
  {
  }

  lemma LargeShare(q: real, d: real, n: real)
    requires d > 0.0 && q * d == n && n >= d
    ensures q >= 1.0
  {
  }

  /** The other fields of a summary. */
  lemma FieldsMean(w: Window, ps: seq<Point>)
    requires ps != [] && w.cadence > 0.0
    ensures var s, last := BatchSummary(w, ps), LastInside(w, ps);
            && s.unit == (if last.Some? then last.value.unit else ps[|ps| - 1].unit) && s.kind == w.kindOf(s.unit)
            && s.stats == StatsOf(Inside(w, ps), s.kind) && s.expected == Expected(w)
            && s.expected >= 1 && s.coverage == Coverage(s.stats.samples, s.expected)
            && s.dataAge == (if last.None? then None else Some(Max(0, w.now - last.value.ts)))
            && (s.numeric <==> forall p <- ps :: IsInside(w, p) ==> p.text.None?)
            && s.transitions == (if s.kind == Categorical || s.kind == Identity || s.kind == Timestamp
                                 then Some(Turns(w, ps).0) else None)
  {
    hide Outline, SecondsOf, AreaOf, Mean, Turns, LastInside, StatsOf, Filter, Expected, Coverage;
    OutlineMeans(w, ps);
    SamplesCount(Inside(w, ps), Outline(w, ps).kind);
  }

  lemma OutlineMeans(w: Window, ps: seq<Point>)
    requires ps != [] && w.cadence > 0.0
    ensures var s, last := Outline(w, ps), LastInside(w, ps);
            && s.unit == (if last.Some? then last.value.unit else ps[|ps| - 1].unit) && s.kind == w.kindOf(s.unit)
            && s.stats == StatsOf(Inside(w, ps), s.kind) && s.expected == Expected(w)
            && s.expected >= 1 && s.coverage == Coverage(|Inside(w, ps)|, s.expected)
            && s.dataAge == (if last.None? then None else Some(Max(0, w.now - last.value.ts)))
            && (s.numeric <==> forall p <- ps :: IsInside(w, p) ==> p.text.None?)
            && s.transitions == (if s.kind == Categorical || s.kind == Identity || s.kind == Timestamp
                                 then Some(Turns(w, ps).0) else None)
  {
    hide Filter, StatsOf, Coverage, Expected, Changes, Values, Turns, LastInside;
    LastInsideIs(w, ps);
    TurnsMean(w, ps);
    ExpectedPositive(w);
    NoTextInside(w, ps);
  }

  lemma NoTextInside(w: Window, ps: seq<Point>)
    ensures (forall p <- Inside(w, ps) :: p.text.None?) <==> (forall p <- ps :: IsInside(w, p) ==> p.text.None?)
  {
    InsideMembers(w, ps);
  }

  // ----- Transitions --------------------------------------------------------------------

  /** How often the value inside the window has changed, and the last value, point by point. */
  function Turns(w: Window, ps: seq<Point>): (nat, Option<Value>) {
    if ps == [] then (0, None)
    else
      var (count, before) := Turns(w, ps[..|ps| - 1]);
      var p := ps[|ps| - 1];
      if !IsInside(w, p) || (p.numeric.None? && p.text.None?) then (count, before)
      else
        var v := if p.numeric.Some? then Number(p.numeric.value) else Text(p.text.value);
        (if before.Some? && before.value != v then count + 1 else count, Some(v))
  }

  /** What is known of a list of values: how often they change, and the last one. */
  function Told(values: seq<Value>): (nat, Option<Value>) {
    (Changes(values), if values == [] then None else Some(values[|values| - 1]))
  }

  lemma ToldOne(values: seq<Value>, v: Value)
    ensures var (count, before) := Told(values);
            Told(values + [v]) == (if before.Some? && before.value != v then count + 1 else count, Some(v))
  {
    ChangesExtend(values, v);
  }

  lemma TurnsOne(w: Window, ps: seq<Point>, p: Point)
    ensures var (count, before) := Turns(w, ps);
            Turns(w, ps + [p]) ==
            if w.Holds(p) && ValueOf(p).Some?
            then (if before.Some? && before != ValueOf(p) then count + 1 else count, ValueOf(p))
            else (count, before)
  {
    assert (ps + [p])[..|ps|] == ps;
  }

  lemma {:induction false} TurnsMean(w: Window, ps: seq<Point>)
    ensures Turns(w, ps) == Told(Values(Inside(w, ps)))
  {
    if ps != [] {
      hide Turns, Filter, Values, Told, Inside, ValueOf;
      var front, p := ps[..|ps| - 1], ps[|ps| - 1];
      assert ps == front + [p];
      TurnsMean(w, front);
      TurnsOne(w, front, p);
      InsideOne(w, front, p);
      ValuesExtend(Inside(w, front), p);
      if ValueOf(p).Some? {
        ToldOne(Values(Inside(w, front)), ValueOf(p).value);
      } else {
        assert Values(Inside(w, front)) + [] == Values(Inside(w, front));
      }
    }
  }
}
