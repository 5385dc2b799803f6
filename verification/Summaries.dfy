/** The two ways of summarising a window of raw points: all at once, or one point at a time
    without keeping them. They are shown to report the same figures. */
module Summaries {
  import opened Common
  import opened Series

  /** A window and the settings a summary is computed under. */
  datatype Window = Window(start: int, end: int, cadence: real, now: int, multiplier: real, kindOf: string -> Kind) {
    predicate Holds(p: Point) {
      start <= p.ts < end
    }

    function MaxGap(): real {
      cadence * multiplier
    }
  }

  datatype Summary = Summary(unit: string, kind: Kind, stats: Stats, expected: int, coverage: real,
                             dataAge: Option<int>, transitions: Option<nat>, numeric: bool,
                             weightedSeconds: int, average: Option<real>)

  /** Conversion to an integer, toward zero. */
  function Trunc(x: real): int {
    if x >= 0.0 then x.Floor else -((-x).Floor)
  }

  function Expected(w: Window): int
    requires w.cadence > 0.0
  {
    Max(1, Ceil(Max(0, w.end - w.start) as real / w.cadence))
  }

  function Coverage(samples: nat, expected: int): real
    requires expected >= 1
  {
    if samples as real / expected as real < 1.0 then samples as real / expected as real else 1.0
  }

  function Holding(w: Window): Point -> bool {
    (p: Point) => w.Holds(p)
  }

  function Inside(w: Window, ps: seq<Point>): seq<Point> {
    Filter(ps, Holding(w))
  }

  /** How long a value stands for: from its point (or the window's start) to the next point,
      but no further than the largest credible gap. */
  function Seconds(w: Window, p: Point, next: int): int {
    if p.numeric.None? || p.quality == Unavailable then 0
    else if p.ts < w.start && (w.start - p.ts) as real > w.MaxGap() then 0
    else Max(0, Min(Min(w.end, next), Trunc(p.ts as real + w.MaxGap())) - Max(w.start, p.ts))
  }

  type Weighted = (real, real)

  function Product(x: Weighted): real {
    x.0 * x.1
  }

  function Mean(total: real, seconds: int): real
    requires seconds != 0
  {
    total / seconds as real
  }

  function Area(w: Window, p: Point, next: int): real {
    if Seconds(w, p, next) == 0 then 0.0 else Product((p.numeric.value, Seconds(w, p, next) as real))
  }

  function NextTime(w: Window, ps: seq<Point>, i: nat): int
    requires i < |ps|
  {
    if i + 1 < |ps| then ps[i + 1].ts else w.end
  }

  function SecondsOf(w: Window, ps: seq<Point>, n: nat): int
    requires n <= |ps|
  {
    if n == 0 then 0 else SecondsOf(w, ps, n - 1) + Seconds(w, ps[n - 1], NextTime(w, ps, n - 1))
  }

  function AreaOf(w: Window, ps: seq<Point>, n: nat): real
    requires n <= |ps|
  {
    if n == 0 then 0.0 else AreaOf(w, ps, n - 1) + Area(w, ps[n - 1], NextTime(w, ps, n - 1))
  }

  function UnitOf(w: Window, ps: seq<Point>): string
    requires ps != []
  {
    var inside := Inside(w, ps);
    if inside != [] then inside[|inside| - 1].unit else ps[|ps| - 1].unit
  }

  /** The part of a summary that does not depend on how long each value stood. */
  function Outline(w: Window, ps: seq<Point>): Summary
    requires ps != [] && w.cadence > 0.0
  {
    var inside := Inside(w, ps);
    var unit := UnitOf(w, ps);
    var kind := w.kindOf(unit);
    Summary(unit, kind, StatsOf(inside, kind), Expected(w), Coverage(|inside|, Expected(w)),
            AgeOf(w, inside),
            if SupportsTransitions(kind) then Some(Changes(Values(inside))) else None,
            forall p <- inside :: p.text.None?, 0, None)
  }

  function AgeOf(w: Window, inside: seq<Point>): Option<int> {
    if inside == [] then None else Some(Max(0, w.now - inside[|inside| - 1].ts))
  }

  /** The summary of a series, defined on all its points in time order. */
  function BatchSummary(w: Window, ps: seq<Point>): Summary
    requires ps != [] && w.cadence > 0.0
  {
    var outline, seconds := Outline(w, ps), SecondsOf(w, ps, |ps|);
    if SupportsRange(outline.kind) then
      outline.(weightedSeconds := seconds,
               average := if seconds > 0 then Some(Mean(AreaOf(w, ps, |ps|), seconds)) else None)
    else outline
  }

  lemma {:induction false} SecondsNonNegative(w: Window, ps: seq<Point>, n: nat)
    requires n <= |ps|
    ensures SecondsOf(w, ps, n) >= 0
  {
    if n > 0 {
      SecondsNonNegative(w, ps, n - 1);
    }
  }

  // ----- Weighted percentile ------------------------------------------------------------

  predicate Before(a: Weighted, b: Weighted) {
    a.0 < b.0 || (a.0 == b.0 && a.1 <= b.1)
  }

  function Place(s: seq<Weighted>, x: Weighted): seq<Weighted> {
    if s == [] || Before(s[|s| - 1], x) then s + [x] else Place(s[..|s| - 1], x) + [s[|s| - 1]]
  }

  /** The entries of positive weight, in order. */
  function Ordered(s: seq<Weighted>): seq<Weighted> {
    if s == [] then []
    else if s[|s| - 1].1 > 0.0 then Place(Ordered(s[..|s| - 1]), s[|s| - 1])
    else Ordered(s[..|s| - 1])
  }

  predicate Ascending(s: seq<Weighted>) {
    forall i, j :: 0 <= i < j < |s| ==> s[i].0 <= s[j].0
  }

  /** Which values of a weighted list to count. */
  datatype Cut = All | Below(v: real) | UpTo(v: real)

  predicate Counts(c: Cut, x: real) {
    match c
    case All => true
    case Below(v) => x < v
    case UpTo(v) => x <= v
  }

  function Weight(x: Weighted, c: Cut): real {
    if Counts(c, x.0) && x.1 > 0.0 then x.1 else 0.0
  }

  /** The total positive weight of the entries a cut counts. */
  function Mass(s: seq<Weighted>, c: Cut): real {
    if s == [] then 0.0 else Mass(s[..|s| - 1], c) + Weight(s[|s| - 1], c)
  }

  lemma MassOne(s: seq<Weighted>, x: Weighted, c: Cut)
    ensures Mass(s + [x], c) == Mass(s, c) + Weight(x, c)
  {
    assert (s + [x])[..|s|] == s;
  }

  lemma {:induction false} PlaceKeepsMass(s: seq<Weighted>, x: Weighted, c: Cut)
    ensures Mass(Place(s, x), c) == Mass(s, c) + Weight(x, c)
  {
    if s == [] || Before(s[|s| - 1], x) {
      MassOne(s, x, c);
    } else {
      PlaceKeepsMass(s[..|s| - 1], x, c);
      MassOne(Place(s[..|s| - 1], x), s[|s| - 1], c);
    }
  }

  lemma {:induction false} OrderedKeepsMass(s: seq<Weighted>, c: Cut)
    ensures Mass(Ordered(s), c) == Mass(s, c)
  {
    if s != [] {
      OrderedKeepsMass(s[..|s| - 1], c);
      if s[|s| - 1].1 > 0.0 {
        PlaceKeepsMass(Ordered(s[..|s| - 1]), s[|s| - 1], c);
      }
    }
  }

  lemma {:induction false} PlaceAscends(s: seq<Weighted>, x: Weighted)
    requires Ascending(s)
    ensures Ascending(Place(s, x)) && forall y :: y in Place(s, x) <==> y == x || y in s
  {
    if s != [] && !Before(s[|s| - 1], x) {
      var front, last := s[..|s| - 1], s[|s| - 1];
      PlaceAscends(front, x);
      assert s == front + [last];
      assert forall y <- Place(front, x) :: y.0 <= last.0;
    }
  }

  lemma {:induction false} OrderedAscends(s: seq<Weighted>)
    ensures Ascending(Ordered(s))
    ensures forall y :: y in Ordered(s) <==> y in s && y.1 > 0.0
  {
    if s != [] {
      OrderedAscends(s[..|s| - 1]);
      assert s == s[..|s| - 1] + [s[|s| - 1]];
      if s[|s| - 1].1 > 0.0 {
        PlaceAscends(Ordered(s[..|s| - 1]), s[|s| - 1]);
      }
    }
  }

  /** `v` is the value below which less than the given share of the weight lies, and at or
      below which at least that share lies. */
  predicate IsPercentile(s: seq<Weighted>, share: real, v: real) {
    Mass(s, Below(v)) < Mass(s, All) * share <= Mass(s, UpTo(v))
  }

  /** A cut that counts no more of the values has no more mass. */
  lemma {:induction false} MassBounded(s: seq<Weighted>, c: Cut, d: Cut)
    requires forall x <- s :: Counts(c, x.0) ==> Counts(d, x.0)
    ensures Mass(s, c) <= Mass(s, d)
  {
    if s != [] {
      assert s[|s| - 1] in s;
      MassBounded(s[..|s| - 1], c, d);
    }
  }

  /** Cutting an ordered list at one of its values, against cutting it at that position. */
  lemma {:induction false} MassSplit(s: seq<Weighted>, i: nat)
    requires Ascending(s) && i < |s|
    ensures Mass(s, Below(s[i].0)) <= Mass(s[..i], All)
    ensures Mass(s[..i + 1], All) <= Mass(s, UpTo(s[i].0))
  {
    if i == |s| - 1 {
      LastSplit(s);
    } else {
      var front := s[..|s| - 1];
      assert front[..i] == s[..i] && front[..i + 1] == s[..i + 1];
      MassSplit(front, i);
      hide Ascending;
      LaterWeight(s, i);
    }
  }

  /** Cutting at the last value. */
  lemma LastSplit(s: seq<Weighted>)
    requires Ascending(s) && s != []
    ensures Mass(s, Below(s[|s| - 1].0)) <= Mass(s[..|s| - 1], All)
    ensures Mass(s[..|s|], All) <= Mass(s, UpTo(s[|s| - 1].0))
  {
    var v := s[|s| - 1].0;
    assert s[..|s|] == s;
    assert Mass(s, Below(v)) == Mass(s[..|s| - 1], Below(v));
    hide Mass;
    forall x | x in s
      ensures x.0 <= v
    {
      var i :| 0 <= i < |s| && s[i] == x;
    }
    hide Ascending;
    MassBounded(s[..|s| - 1], Below(v), All);
    MassBounded(s, All, UpTo(v));
  }

  /** A value after position `i` adds nothing below the value there. */
  lemma LaterWeight(s: seq<Weighted>, i: nat)
    requires Ascending(s) && i < |s| - 1
    ensures Mass(s, Below(s[i].0)) == Mass(s[..|s| - 1], Below(s[i].0))
    ensures Mass(s[..|s| - 1], UpTo(s[i].0)) <= Mass(s, UpTo(s[i].0))
  {
  }

  lemma {:induction false} MassPositive(s: seq<Weighted>)
    ensures Mass(s, All) >= 0.0
    ensures Mass(s, All) > 0.0 <==> exists x <- s :: x.1 > 0.0
  {
    if s != [] {
      MassPositive(s[..|s| - 1]);
      assert s == s[..|s| - 1] + [s[|s| - 1]];
    }
  }

  /** The first position at which the running weight reaches the target, else the last one. */
  method Reach(positive: seq<Weighted>, target: real) returns (i: nat)
    requires positive != [] && forall x <- positive :: x.1 > 0.0
    ensures i < |positive|
    ensures i > 0 ==> Mass(positive[..i], All) < target
    ensures i < |positive| - 1 ==> target <= Mass(positive[..i + 1], All)
  {
    var cumulative := 0.0;
    for k := 0 to |positive|
      invariant cumulative == Mass(positive[..k], All)
      invariant k > 0 ==> cumulative < target
    {
      assert positive[..k + 1] == positive[..k] + [positive[k]] && positive[k] in positive;
      MassOne(positive[..k], positive[k], All);
      cumulative := cumulative + positive[k].1;
      if cumulative >= target {
        return k;
      }
    }
    i := |positive| - 1;
    assert positive[..|positive|] == positive[..i] + [positive[i]] && positive[i] in positive;
    MassOne(positive[..i], positive[i], All);
  }

  lemma ShareBound(total: real, share: real)
    requires total > 0.0 && 0.0 < share <= 1.0
    ensures 0.0 < total * share <= total
  {
    assert total * share + total * (1.0 - share) == total;
  }

  lemma ReachedInOrder(positive: seq<Weighted>, i: nat, target: real)
    requires Ascending(positive) && (forall x <- positive :: x.1 > 0.0)
    requires i < |positive| && 0.0 < target <= Mass(positive, All)
    requires i > 0 ==> Mass(positive[..i], All) < target
    requires i < |positive| - 1 ==> target <= Mass(positive[..i + 1], All)
    ensures Mass(positive, Below(positive[i].0)) < target <= Mass(positive, UpTo(positive[i].0))
  {
    MassSplit(positive, i);
    if i == 0 {
      assert positive[..0] == [] && Mass([], All) == 0.0;
    }
    if i == |positive| - 1 {
      assert positive[..i + 1] == positive;
    }
  }

  lemma ReachedIsPercentile(values: seq<Weighted>, share: real, i: nat, target: real)
    requires 0.0 < share <= 1.0 && i < |Ordered(values)| && target == Mass(Ordered(values), All) * share
    requires i > 0 ==> Mass(Ordered(values)[..i], All) < target
    requires i < |Ordered(values)| - 1 ==> target <= Mass(Ordered(values)[..i + 1], All)
    ensures IsPercentile(values, share, Ordered(values)[i].0)
  {
    hide Mass, Ascending, Ordered;
    var v := Ordered(values)[i].0;
    OrderedAscends(values);
    OrderedKeepsMass(values, All);
    OrderedKeepsMass(values, Below(v));
    OrderedKeepsMass(values, UpTo(v));
    assert Ordered(values)[i] in Ordered(values);
    MassPositive(Ordered(values));
    ShareBound(Mass(Ordered(values), All), share);
    ReachedInOrder(Ordered(values), i, target);
  }

  method WeightedPercentile(values: seq<Weighted>, share: real) returns (r: Option<real>)
    ensures r.None? <==> forall x <- values :: x.1 <= 0.0
    ensures r.Some? ==> exists x <- values :: x.0 == r.value && x.1 > 0.0
    ensures r.Some? && 0.0 < share <= 1.0 ==> IsPercentile(values, share, r.value)
  {
    var positive := Ordered(values);
    OrderedAscends(values);
    MassPositive(positive);
    hide Ordered, Mass, Ascending, IsPercentile;
    var total := Mass(positive, All);
    if positive == [] || total <= 0.0 {
      forall x | x in values
        ensures x.1 <= 0.0
      {
        assert x !in positive || x.1 <= 0.0;
      }
      return None;
    }
    var target := total * share;
    var i := Reach(positive, target);
    assert positive[i] in positive;
    if 0.0 < share <= 1.0 {
      ReachedIsPercentile(values, share, i, target);
    }
    return Some(positive[i].0);
  }

  // ----- Batch --------------------------------------------------------------------------

  /** The total weight of a list of weighted values, and the total of value times weight. */
  function SumWeights(s: seq<Weighted>): real {
    if s == [] then 0.0 else SumWeights(s[..|s| - 1]) + s[|s| - 1].1
  }

  function SumProducts(s: seq<Weighted>): real {
    if s == [] then 0.0 else SumProducts(s[..|s| - 1]) + Product(s[|s| - 1])
  }

  lemma SumsOne(s: seq<Weighted>, x: Weighted)
    ensures SumWeights(s + [x]) == SumWeights(s) + x.1 && SumProducts(s + [x]) == SumProducts(s) + Product(x)
  {
    assert (s + [x])[..|s|] == s;
  }

  /** The length of one segment, as both summaries compute it. */
  method Segment(w: Window, p: Point, next: int) returns (seconds: int)
    ensures seconds == Seconds(w, p, next) && seconds >= 0
    ensures seconds > 0 ==> p.numeric.Some?
  {
    if p.numeric.None? || p.quality == Unavailable {
      return 0;
    }
    if p.ts < w.start && (w.start - p.ts) as real > w.MaxGap() {
      return 0;
    }
    var segmentStart := Max(w.start, p.ts);
    var segmentEnd := Min(Min(w.end, next), Trunc(p.ts as real + w.MaxGap()));
    if segmentEnd <= segmentStart {
      return 0;
    }
    return segmentEnd - segmentStart;
  }

  /** The values that stood for some time inside the window, each with its seconds. */
  function Weights(w: Window, ps: seq<Point>, n: nat): (r: seq<Weighted>)
    requires n <= |ps|
    ensures forall x <- r :: x.1 > 0.0
  {
    if n == 0 then [] else
    var seconds := Seconds(w, ps[n - 1], NextTime(w, ps, n - 1));
    Weights(w, ps, n - 1) + if seconds > 0 then [(ps[n - 1].numeric.value, seconds as real)] else []
  }

  lemma {:induction false} WeightsAddUp(w: Window, ps: seq<Point>, n: nat)
    requires n <= |ps|
    ensures SumWeights(Weights(w, ps, n)) == SecondsOf(w, ps, n) as real
    ensures SumProducts(Weights(w, ps, n)) == AreaOf(w, ps, n)
  {
    if n == 0 {
      assert Weights(w, ps, n) == [];
    } else {
      hide Seconds, SumWeights, SumProducts, Product, Weights, Area;
      WeightsAddUp(w, ps, n - 1);
      WeightsStep(w, ps, n);
    }
  }

  /** One more point adds its seconds and its area. */
  lemma WeightsStep(w: Window, ps: seq<Point>, n: nat)
    requires 0 < n <= |ps|
    ensures var before, after := Weights(w, ps, n - 1), Weights(w, ps, n);
            && SumWeights(after) == SumWeights(before) + Seconds(w, ps[n - 1], NextTime(w, ps, n - 1)) as real
            && SumProducts(after) == SumProducts(before) + Area(w, ps[n - 1], NextTime(w, ps, n - 1))
  {
    hide Seconds, SumWeights, SumProducts, Product;
    var seconds := Seconds(w, ps[n - 1], NextTime(w, ps, n - 1));
    SecondsOfValue(w, ps[n - 1], NextTime(w, ps, n - 1));
    if seconds > 0 {
      var entry := (ps[n - 1].numeric.value, seconds as real);
      assert Weights(w, ps, n) == Weights(w, ps, n - 1) + [entry];
      SumsOne(Weights(w, ps, n - 1), entry);
    } else {
      assert Weights(w, ps, n) == Weights(w, ps, n - 1);
    }
  }

  lemma SecondsOfValue(w: Window, p: Point, next: int)
    ensures Seconds(w, p, next) >= 0
    ensures Seconds(w, p, next) > 0 ==> p.numeric.Some?
  {
  }

  method Weigh(w: Window, ps: seq<Point>) returns (weighted: seq<Weighted>, seconds: int)
    ensures weighted == Weights(w, ps, |ps|) && seconds == SecondsOf(w, ps, |ps|)
    ensures seconds >= 0 && (seconds > 0 ==> weighted != [])
  {
    weighted, seconds := [], 0;
    hide Seconds;
    for i := 0 to |ps|
      invariant weighted == Weights(w, ps, i) && seconds == SecondsOf(w, ps, i)
      invariant seconds >= 0 && (seconds > 0 ==> weighted != [])
    {
      var next := if i + 1 < |ps| then ps[i + 1].ts else w.end;
      var length := Segment(w, ps[i], next);
      if length > 0 {
        weighted := weighted + [(ps[i].numeric.value, length as real)];
        seconds := seconds + length;
      }
    }
  }

  /** Summarises the points of one series, given in any order. */
  method RawSummary(w: Window, points: seq<Point>, allowP95: bool) returns (s: Summary, p95: Option<real>)
    requires points != [] && w.cadence > 0.0
    ensures SortByTime(points) != [] && s == BatchSummary(w, SortByTime(points))
    ensures p95.Some? <==> allowP95 && s.average.Some?
    ensures p95.Some? ==> IsPercentile(Weights(w, SortByTime(points), |SortByTime(points)|), 0.95, p95.value)
  {
    var ps := SortByTime(points);
    SortSorts(points);
    assert points[0] in multiset(ps);
    hide SortByTime, Sorted, SecondsOf, AreaOf, Outline, Weights, IsPercentile;
    s := Outline(w, ps);
    p95 := None;
    if !SupportsRange(s.kind) {
      OutlineIsBare(w, ps);
      return;
    }
    var weighted, seconds := Weigh(w, ps);
    WeightsAddUp(w, ps, |ps|);
    s := s.(weightedSeconds := seconds);
    OutlineIsBare(w, ps);
    if seconds > 0 {
      s := s.(average := Some(Mean(SumProducts(weighted), seconds)));
      if allowP95 {
        p95 := WeightedPercentile(weighted, 0.95);
        assert weighted[0] in weighted;
      }
    }
  }

  lemma OutlineIsBare(w: Window, ps: seq<Point>)
    requires ps != [] && w.cadence > 0.0
    ensures Outline(w, ps).average.None? && Outline(w, ps).weightedSeconds == 0
  {
  }

  // ----- Streaming ----------------------------------------------------------------------

  lemma {:induction false} PrefixSeconds(w: Window, ps: seq<Point>, p: Point, n: nat)
    requires n < |ps|
    ensures SecondsOf(w, ps + [p], n) == SecondsOf(w, ps, n) && AreaOf(w, ps + [p], n) == AreaOf(w, ps, n)
  {
    if n > 0 {
      PrefixSeconds(w, ps, p, n - 1);
    }
  }

  predicate OneUnit(ps: seq<Point>) {
    forall p, q :: p in ps && q in ps ==> p.unit == q.unit
  }

  /** One more point inside the window moves every figure by one step. */
  function Extended(s: Stats, p: Point, kind: Kind): Stats {
    Stats(s.samples + 1, if s.samples == 0 then p.quality else Worse(s.quality, p.quality),
          s.unavailable + if Missing(p) then 1 else 0, s.resets + p.reset, s.gaps + p.gap,
          if s.first.None? then Some(p.ts) else s.first, Some(p.ts), ValueOf(p),
          if SupportsRange(kind) then Lower(s.minimum, Ranged(p)) else s.minimum,
          if SupportsRange(kind) then Upper(s.maximum, Ranged(p)) else s.maximum)
  }

  /** One more value: how often the value has changed, `None` before the first one. */
  function Recounted(count: Option<nat>, before: Option<Value>, v: Value): Option<nat> {
    if before.Some? && v != before.value then Some((if count.None? then 0 else count.value) + 1)
    else if count.None? then Some(0) else count
  }

  lemma StatsExtend(inside: seq<Point>, p: Point, kind: Kind)
    ensures StatsOf(inside + [p], kind) == Extended(StatsOf(inside, kind), p, kind)
  {
    var more := inside + [p];
    assert more[..|more| - 1] == inside;
    if inside == [] {
      assert more == [p] && more[..0] == [];
      assert CountMissing([]) == 0 && SumResets([]) == 0 && SumGaps([]) == 0;
      assert Minimum([]).None? && Maximum([]).None?;
    }
  }

  lemma ValuesExtend(inside: seq<Point>, p: Point)
    ensures Values(inside + [p]) == Values(inside) + if ValueOf(p).Some? then [ValueOf(p).value] else []
  {
    assert (inside + [p])[..|inside|] == inside;
  }

  lemma ChangesExtend(vs: seq<Value>, v: Value)
    ensures Changes(vs + [v]) == Changes(vs) + if vs != [] && vs[|vs| - 1] != v then 1 else 0
  {
    assert (vs + [v])[..|vs|] == vs;
  }

  /** What a running summary says of the points inside the window so far. */
  ghost predicate Counted(w: Window, inside: seq<Point>, s: Summary, last: Option<Value>)
    requires w.cadence > 0.0
  {
    && s.expected == Expected(w)
    && s.stats == StatsOf(inside, s.kind)
    && s.coverage == Coverage(|inside|, s.expected)
    && s.dataAge == AgeOf(w, inside)
    && CountedTurns(Values(inside), SupportsTransitions(s.kind), s.transitions, last)
  }

  ghost predicate CountedTurns(values: seq<Value>, supported: bool, count: Option<nat>, last: Option<Value>) {
    && (supported ==> last == if values == [] then None else Some(values[|values| - 1]))
    && count == if supported && values != [] then Some(Changes(values)) else None
  }

  /** The running summary after one more point inside the window; the point's own unit decides what
      it counts towards. */
  function Counting(w: Window, s: Summary, last: Option<Value>, p: Point): Summary
    requires s.expected >= 1
  {
    var kind := w.kindOf(p.unit);
    s.(stats := Extended(s.stats, p, kind),
       coverage := Coverage(s.stats.samples + 1, s.expected),
       dataAge := Some(Max(0, w.now - p.ts)),
       transitions := if SupportsTransitions(kind) && ValueOf(p).Some?
                      then Recounted(s.transitions, last, ValueOf(p).value) else s.transitions)
  }

  function Turned(w: Window, last: Option<Value>, p: Point): Option<Value> {
    if SupportsTransitions(w.kindOf(p.unit)) && ValueOf(p).Some? then ValueOf(p) else last
  }

  function Opening(w: Window, p: Point): Summary
    requires w.cadence > 0.0
  {
    Summary(p.unit, w.kindOf(p.unit), NO_STATS, Expected(w), 0.0, None, None, p.text.None?, 0, None)
  }

  lemma OpeningCounts(w: Window, p: Point)
    requires w.cadence > 0.0
    ensures Counted(w, [], Opening(w, p), None)
  {
    assert 0 as real / Expected(w) as real == 0.0;
  }

  lemma CountingCounts(w: Window, inside: seq<Point>, s: Summary, last: Option<Value>, p: Point)
    requires w.cadence > 0.0 && Counted(w, inside, s, last) && s.kind == w.kindOf(p.unit)
    ensures Counted(w, inside + [p], Counting(w, s, last, p), Turned(w, last, p))
  {
    hide StatsOf, Extended, CountedTurns, Coverage, Values, Expected, Recounted;
    StatsExtend(inside, p, s.kind);
    SamplesCount(inside, s.kind);
    ValuesExtend(inside, p);
    if ValueOf(p).Some? {
      TurnsStep(Values(inside), SupportsTransitions(s.kind), s.transitions, last, ValueOf(p).value);
    } else {
      assert Values(inside + [p]) == Values(inside);
    }
  }

  lemma SamplesCount(inside: seq<Point>, kind: Kind)
    ensures StatsOf(inside, kind).samples == |inside|
  {
  }

  lemma TurnsStep(values: seq<Value>, supported: bool, count: Option<nat>, last: Option<Value>, v: Value)
    requires CountedTurns(values, supported, count, last)
    ensures CountedTurns(values + [v], supported, if supported then Recounted(count, last, v) else count,
                         if supported then Some(v) else last)
  {
    ChangesExtend(values, v);
  }

  /** The segments closed so far. */
  ghost predicate Weighed(w: Window, fed: seq<Point>, s: Summary, total: real)
    requires fed != []
  {
    s.weightedSeconds == SecondsOf(w, fed, |fed| - 1) && total == AreaOf(w, fed, |fed| - 1)
  }

  lemma WeighedStep(w: Window, fed: seq<Point>, s: Summary, total: real, p: Point)
    requires fed != [] && Weighed(w, fed, s, total)
    ensures Weighed(w, fed + [p], s.(weightedSeconds := s.weightedSeconds + Seconds(w, fed[|fed| - 1], p.ts)),
                    total + Area(w, fed[|fed| - 1], p.ts))
  {
    hide Seconds, Area;
    PrefixSeconds(w, fed, p, |fed| - 1);
  }

  lemma FirstWeighs(w: Window, fed: seq<Point>, s: Summary)
    requires |fed| == 1 && s.weightedSeconds == 0
    ensures Weighed(w, fed, s, 0.0)
  {
  }

  lemma ExpectedPositive(w: Window)
    requires w.cadence > 0.0
    ensures Expected(w) >= 1
  {
  }

  /** A finished streaming summary against the batch summary of the same points. */
  ghost predicate Agrees(w: Window, ps: seq<Point>, s: Summary)
    requires ps != [] && w.cadence > 0.0
  {
    var batch := BatchSummary(w, ps);
    && s.unit == batch.unit && s.kind == batch.kind
    && s.stats == batch.stats && s.expected == batch.expected && s.coverage == batch.coverage
       && s.dataAge == batch.dataAge
    && s.average == batch.average
    && (SupportsRange(s.kind) ==> s.weightedSeconds == batch.weightedSeconds)
    && s.transitions == (if Values(Inside(w, ps)) == [] then None else batch.transitions)
    && s.numeric == ps[0].text.None?
  }

  lemma OneUnitAgrees(w: Window, ps: seq<Point>)
    requires ps != [] && OneUnit(ps)
    ensures UnitOf(w, ps) == ps[0].unit
  {
    var inside := Inside(w, ps);
    FilterMembers(ps, Holding(w));
    assert inside != [] ==> inside[|inside| - 1] in inside;
    assert ps[|ps| - 1] in ps && ps[0] in ps;
  }

  // ----- The accumulator ----------------------------------------------------------------

  /** All that is kept between two points. */
  datatype Running = Running(summary: Summary, last: Option<Value>, total: real)

  function CountIn(w: Window, a: Running, p: Point): Running
    requires a.summary.expected >= 1
  {
    if w.Holds(p) then Running(Counting(w, a.summary, a.last, p), Turned(w, a.last, p), a.total) else a
  }

  function Weighing(w: Window, a: Running, p: Point, next: int): Running {
    a.(summary := a.summary.(weightedSeconds := a.summary.weightedSeconds + Seconds(w, p, next)),
       total := a.total + Area(w, p, next))
  }

  /** What is kept after any points, of whatever units. */
  function RunningOf(w: Window, fed: seq<Point>): (a: Running)
    requires fed != [] && w.cadence > 0.0
    ensures a.summary.expected == Expected(w) && a.summary.average.None?
    ensures a.summary.unit == fed[0].unit && a.summary.kind == w.kindOf(fed[0].unit)
              && a.summary.numeric == fed[0].text.None?
  {
    var front, p := fed[..|fed| - 1], fed[|fed| - 1];
    if front == [] then CountIn(w, Running(Opening(w, p), None, 0.0), p)
    else CountIn(w, Weighing(w, RunningOf(w, front), front[|front| - 1], p.ts), p)
  }

  /** The summary that finishing makes of it. */
  function Finished(w: Window, fed: seq<Point>): Summary
    requires fed != [] && w.cadence > 0.0
  {
    var a := Weighing(w, RunningOf(w, fed), fed[|fed| - 1], w.end);
    if SupportsRange(a.summary.kind) && a.summary.weightedSeconds != 0
    then a.summary.(average := Some(Mean(a.total, a.summary.weightedSeconds))) else a.summary
  }

  lemma CountInCounts(w: Window, fed: seq<Point>, a: Running, p: Point)
    requires w.cadence > 0.0 && Counted(w, Inside(w, fed), a.summary, a.last) && a.summary.kind == w.kindOf(p.unit)
    requires Weighed(w, fed + [p], a.summary, a.total)
    ensures a.summary.expected >= 1
    ensures var b := CountIn(w, a, p);
            Counted(w, Inside(w, fed + [p]), b.summary, b.last) && Weighed(w, fed + [p], b.summary, b.total)
  {
    ExpectedPositive(w);
    FilterOne(fed, p, Holding(w));
    hide Filter, StatsOf, Coverage, Extended, Recounted, SecondsOf, AreaOf, Expected, CountedTurns, Values;
    if w.Holds(p) {
      CountingCounts(w, Inside(w, fed), a.summary, a.last, p);
    } else {
      assert Inside(w, fed + [p]) == Inside(w, fed);
    }
  }

  /** The units of a series all make it the same kind of metric. */
  predicate OneKind(w: Window, ps: seq<Point>) {
    forall p, q :: p in ps && q in ps ==> w.kindOf(p.unit) == w.kindOf(q.unit)
  }

  /** In a series of one kind the accumulator holds the batch figures of the points so far. */
  lemma {:induction false} RunningFigures(w: Window, fed: seq<Point>)
    requires fed != [] && w.cadence > 0.0 && OneKind(w, fed)
    ensures var a := RunningOf(w, fed);
            Counted(w, Inside(w, fed), a.summary, a.last) && Weighed(w, fed, a.summary, a.total)
  {
    hide Counted, Weighed, Seconds, Area, CountIn, Filter;
    var front, p := fed[..|fed| - 1], fed[|fed| - 1];
    assert fed == front + [p] && p in fed && fed[0] in fed;
    if front == [] {
      OpeningCounts(w, p);
      FirstWeighs(w, fed, Opening(w, p));
      NothingInside(w);
      CountInCounts(w, [], Running(Opening(w, p), None, 0.0), p);
    } else {
      RunningFigures(w, front);
      var a := RunningOf(w, front);
      WeighingKeeps(w, front, a, p);
      CountInCounts(w, front, Weighing(w, a, front[|front| - 1], p.ts), p);
    }
  }

  lemma NothingInside(w: Window)
    ensures Inside(w, []) == []
  {
  }

  lemma WeighingKeeps(w: Window, fed: seq<Point>, a: Running, p: Point)
    requires fed != [] && w.cadence > 0.0
    requires Counted(w, Inside(w, fed), a.summary, a.last) && Weighed(w, fed, a.summary, a.total)
    ensures var b := Weighing(w, a, fed[|fed| - 1], p.ts);
            && Counted(w, Inside(w, fed), b.summary, b.last) && Weighed(w, fed + [p], b.summary, b.total)
            && b.summary.kind == a.summary.kind
  {
    hide Seconds, Area, StatsOf, SecondsOf, AreaOf, Coverage, CountedTurns, Values, Filter, Expected;
    WeighedStep(w, fed, a.summary, a.total, p);
  }

  /** In a series of one unit streaming and batch agree. */
  lemma FinishedAgrees(w: Window, fed: seq<Point>)
    requires fed != [] && OneUnit(fed) && w.cadence > 0.0
    ensures Agrees(w, fed, Finished(w, fed))
  {
    hide Seconds, Area, StatsOf, Expected, Coverage, Changes, Values, UnitOf, Filter;
    hide RunningOf, SecondsOf, AreaOf, Weighed, Finished;
    OneUnitAgrees(w, fed);
    RunningFigures(w, fed);
    FinishedWeights(w, fed);
  }

  /** The weighing of a finished summary, which does not depend on the units. */
  lemma FinishedWeights(w: Window, fed: seq<Point>)
    requires fed != [] && w.cadence > 0.0 && Weighed(w, fed, RunningOf(w, fed).summary, RunningOf(w, fed).total)
    ensures var s, seconds := RunningOf(w, fed).summary, SecondsOf(w, fed, |fed|);
            Finished(w, fed) == s.(weightedSeconds := seconds,
                                   average := if SupportsRange(s.kind) && seconds > 0
                                              then Some(Mean(AreaOf(w, fed, |fed|), seconds)) else None)
  {
    hide Seconds, Area, RunningOf, Mean;
    SecondsNonNegative(w, fed, |fed|);
    var a := RunningOf(w, fed);
    assert SecondsOf(w, fed, |fed|) == a.summary.weightedSeconds + Seconds(w, fed[|fed| - 1], w.end);
    assert AreaOf(w, fed, |fed|) == a.total + Area(w, fed[|fed| - 1], w.end);
  }

  /** In a series of one kind the statistics are the batch statistics. */
  lemma FinishedStats(w: Window, fed: seq<Point>)
    requires fed != [] && OneKind(w, fed) && w.cadence > 0.0
    ensures Finished(w, fed).stats == StatsOf(Inside(w, fed), w.kindOf(fed[0].unit))
  {
    RunningFigures(w, fed);
    hide Seconds, Area, StatsOf, Expected, Coverage, Changes, Values, Filter, RunningOf;
  }

  /** The statistics that no unit decides about. */
  function Unranged(s: Stats): Stats {
    s.(minimum := None, maximum := None)
  }

  /** What streaming and batch agree on even if the units of a series differ. */
  ghost predicate AgreesOnCounts(w: Window, ps: seq<Point>, s: Summary)
    requires ps != [] && w.cadence > 0.0
  {
    var batch := BatchSummary(w, ps);
    && Unranged(s.stats) == Unranged(batch.stats)
    && s.expected == batch.expected && s.coverage == batch.coverage && s.dataAge == batch.dataAge
  }

  lemma ExtendedCounts(s: Stats, t: Stats, p: Point, k: Kind, l: Kind)
    requires Unranged(s) == Unranged(t)
    ensures Unranged(Extended(s, p, k)) == Unranged(Extended(t, p, l))
  {
  }

  lemma StatsCounts(inside: seq<Point>, k: Kind, l: Kind)
    ensures Unranged(StatsOf(inside, k)) == Unranged(StatsOf(inside, l))
  {
  }

  ghost predicate CountsAgree(w: Window, inside: seq<Point>, s: Summary)
    requires w.cadence > 0.0
  {
    && s.expected == Expected(w) && Unranged(s.stats) == Unranged(StatsOf(inside, Gauge))
    && s.coverage == Coverage(|inside|, Expected(w)) && s.dataAge == AgeOf(w, inside)
  }

  lemma CountingAgrees(w: Window, inside: seq<Point>, s: Summary, last: Option<Value>, p: Point)
    requires w.cadence > 0.0 && CountsAgree(w, inside, s) && s.expected >= 1
    ensures CountsAgree(w, inside + [p], Counting(w, s, last, p))
  {
    hide StatsOf, Coverage, Extended, Recounted, Expected, SupportsTransitions;
    StatsExtend(inside, p, Gauge);
    SamplesCount(inside, Gauge);
    assert Unranged(s.stats).samples == s.stats.samples;
    ExtendedCounts(s.stats, StatsOf(inside, Gauge), p, w.kindOf(p.unit), Gauge);
    hide Unranged;
  }

  lemma CountInAgrees(w: Window, fed: seq<Point>, a: Running, p: Point)
    requires w.cadence > 0.0 && CountsAgree(w, Inside(w, fed), a.summary)
    ensures a.summary.expected >= 1 && CountsAgree(w, Inside(w, fed + [p]), CountIn(w, a, p).summary)
  {
    ExpectedPositive(w);
    FilterOne(fed, p, Holding(w));
    assert a.summary.expected == Expected(w);
    hide Filter, CountsAgree, Counting, Turned, Expected;
    if w.Holds(p) {
      CountingAgrees(w, Inside(w, fed), a.summary, a.last, p);
    } else {
      assert Inside(w, fed + [p]) == Inside(w, fed);
    }
  }

  lemma {:induction false} RunningCounts(w: Window, fed: seq<Point>)
    requires fed != [] && w.cadence > 0.0
    ensures CountsAgree(w, Inside(w, fed), RunningOf(w, fed).summary)
  {
    var front, p := fed[..|fed| - 1], fed[|fed| - 1];
    assert fed == front + [p];
    if front == [] {
      OpeningCounts(w, p);
      CountInAgrees(w, [], Running(Opening(w, p), None, 0.0), p);
    } else {
      RunningCounts(w, front);
      hide Seconds, Area, StatsOf, Coverage, Filter, CountIn;
      CountInAgrees(w, front, Weighing(w, RunningOf(w, front), front[|front| - 1], p.ts), p);
    }
  }

  /** Whatever the units, streaming and batch agree on everything that is merely counted. */
  lemma FinishedCounts(w: Window, fed: seq<Point>)
    requires fed != [] && w.cadence > 0.0
    ensures AgreesOnCounts(w, fed, Finished(w, fed))
  {
    RunningCounts(w, fed);
    StatsCounts(Inside(w, fed), Gauge, w.kindOf(UnitOf(w, fed)));
    hide Seconds, Area, StatsOf, SecondsOf, AreaOf, Expected, Coverage, Changes, Values, UnitOf, Filter, RunningOf;
  }

  /** Keeps only the running figures, the last point and the last value. */
  class StreamingSummary {
    const w: Window
    var summary: Option<Summary>
    var previous: Option<Point>
    var previousTransition: Option<Value>
    var weightedTotal: real
    ghost var fed: seq<Point>

    ghost predicate Valid()
      reads this
    {
      && w.cadence > 0.0
      && (summary.Some? <==> fed != [])
      && (previous.Some? <==> fed != [])
      && (fed == [] ==> weightedTotal == 0.0 && previousTransition.None?)
      && (fed != [] ==>
            && previous.value == fed[|fed| - 1]
            && Running(summary.value, previousTransition, weightedTotal) == RunningOf(w, fed))
    }

    constructor (w: Window)
      requires w.cadence > 0.0
      ensures Valid() && fed == [] && this.w == w
    {
      this.w := w;
      summary, previous, previousTransition, weightedTotal, fed := None, None, None, 0.0, [];
    }

    method AddSegment(p: Point, next: int)
      requires summary.Some?
      modifies this`summary, this`weightedTotal
      ensures var before := old(summary).value;
              summary == Some(before.(weightedSeconds := before.weightedSeconds + Seconds(w, p, next)))
      ensures weightedTotal == old(weightedTotal) + Area(w, p, next)
    {
      var seconds := Segment(w, p, next);
      if seconds == 0 {
        return;
      }
      summary := Some(summary.value.(weightedSeconds := summary.value.weightedSeconds + seconds));
      weightedTotal := weightedTotal + p.numeric.value * seconds as real;
    }

    method Add(p: Point)
      requires Valid()
      modifies this
      ensures Valid() && fed == old(fed) + [p]
    {
      hide Seconds, Area, Expected, Counting, Turned;
      ghost var more := fed + [p];
      assert more[..|more| - 1] == fed && more[|more| - 1] == p;
      ExpectedPositive(w);
      if previous.Some? {
        AddSegment(previous.value, p.ts);
      }
      if summary.None? {
        var kind := w.kindOf(p.unit);
        summary := Some(Summary(p.unit, kind, NO_STATS, Expected(w), 0.0, None, None, p.text.None?, 0, None));
      }
      if w.start <= p.ts < w.end {
        Count(p);
      }
      previous := Some(p);
      fed := more;
    }

    /** Closes the last segment against the end of the window. Whatever the units of the points, the
        counts are those of the batch summary; with one unit all figures are that both have. */
    method Finish() returns (s: Summary)
      requires Valid() && fed != []
      modifies this`summary, this`weightedTotal
      ensures s == Finished(w, fed) && AgreesOnCounts(w, fed, s)
      ensures OneUnit(fed) ==> Agrees(w, fed, s)
    {
      hide Seconds, Area, RunningOf, Agrees, AgreesOnCounts;
      AddSegment(previous.value, w.end);
      if SupportsRange(summary.value.kind) && summary.value.weightedSeconds != 0 {
        summary := Some(summary.value.(average := Some(Mean(weightedTotal, summary.value.weightedSeconds))));
      }
      s := summary.value;
      FinishedCounts(w, fed);
      if OneUnit(fed) {
        FinishedAgrees(w, fed);
      }
    }

    method Count(p: Point)
      requires summary.Some? && summary.value.expected >= 1
      modifies this`summary, this`previousTransition
      ensures summary == Some(Counting(w, old(summary).value, old(previousTransition), p))
      ensures previousTransition == Turned(w, old(previousTransition), p)
    {
      var kind := w.kindOf(p.unit);
      var stats := CountStats(summary.value.stats, p, kind);
      summary := Some(summary.value.(stats := stats, coverage := Coverage(stats.samples, summary.value.expected)));
      summary := Some(summary.value.(dataAge := Some(Max(0, w.now - p.ts))));
      if SupportsTransitions(kind) {
        var value := ValueOf(p);
        if value.Some? {
          var count := summary.value.transitions;
          if previousTransition.Some? && value != previousTransition {
            summary := Some(summary.value.(transitions := Some((if count.None? then 0 else count.value) + 1)));
          } else if count.None? {
            summary := Some(summary.value.(transitions := Some(0)));
          }
          previousTransition := value;
        }
      }
    }

    method CountStats(before: Stats, p: Point, kind: Kind) returns (stats: Stats)
      ensures stats == Extended(before, p, kind)
    {
      var firstSample := before.samples == 0;
      stats := before.(samples := before.samples + 1);
      stats := stats.(quality := if firstSample then p.quality else Worse(stats.quality, p.quality));
      var unavailable := p.quality == Unavailable || (p.numeric.None? && p.text.None?);
      stats := stats.(unavailable := stats.unavailable + if unavailable then 1 else 0);
      stats := stats.(resets := stats.resets + p.reset, gaps := stats.gaps + p.gap);
      stats := stats.(first := if stats.first.None? then Some(p.ts) else stats.first, last := Some(p.ts));
      stats := stats.(latest := if p.numeric.Some? then Some(Number(p.numeric.value))
                                else if p.text.Some? then Some(Text(p.text.value)) else None);
      if SupportsRange(kind) && p.numeric.Some? && !unavailable {
        var minimum, maximum := Widen(stats.minimum, stats.maximum, p.numeric.value);
        stats := stats.(minimum := minimum, maximum := maximum);
      }
    }

    method Widen(low: Option<real>, high: Option<real>, value: real)
      returns (minimum: Option<real>, maximum: Option<real>)
      ensures minimum == Lower(low, Some(value)) && maximum == Upper(high, Some(value))
    {
      minimum := if low.None? || value < low.value then Some(value) else low;
      maximum := if high.None? || value > high.value then Some(value) else high;
    }
  }
}
