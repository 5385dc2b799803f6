/** Answers put together from rollup rows and the raw points that are left are the answers
    that all the points ever collected would have given. */
module Hybrid {
  import opened Common
  import opened Series
  import opened Summaries
  import opened Planner
  import opened Scans
  import opened Rollups
  import opened Retention
  import opened RollupSummaries

  function TotalsOf(ps: seq<Point>): Totals {
    Totals(|ps|, CountMissing(ps), SumResets(ps), SumGaps(ps), Minimum(ps), Maximum(ps))
  }

  function Single(p: Point): Totals {
    Totals(1, if Missing(p) then 1 else 0, p.reset, p.gap, Ranged(p), Ranged(p))
  }

  lemma TotalsOne(ps: seq<Point>, p: Point)
    ensures TotalsOf(ps + [p]) == Plus(TotalsOf(ps), Single(p))
  {
    assert (ps + [p])[..|ps|] == ps;
  }

  /** Splitting the points in two by any test splits their totals. */
  lemma {:induction false} TotalsSplit(ps: seq<Point>, f: Point -> bool, g: Point -> bool, h: Point -> bool)
    requires forall p <- ps :: (h(p) <==> f(p) || g(p)) && !(f(p) && g(p))
    ensures TotalsOf(Filter(ps, h)) == Plus(TotalsOf(Filter(ps, f)), TotalsOf(Filter(ps, g)))
  {
    hide TotalsOf, Plus, Filter;
    if ps == [] {
      FilterNone(ps, f);
      FilterNone(ps, g);
      FilterNone(ps, h);
      TotalsOfNone();
      PlusLaws(NOTHING, NOTHING, NOTHING);
    } else {
      var front, p := ps[..|ps| - 1], ps[|ps| - 1];
      assert ps == front + [p] && p in ps;
      TotalsSplit(front, f, g, h);
      SplitStep(front, p, f, g, h);
    }
  }

  lemma SplitStep(front: seq<Point>, p: Point, f: Point -> bool, g: Point -> bool, h: Point -> bool)
    requires (h(p) <==> f(p) || g(p)) && !(f(p) && g(p))
    requires TotalsOf(Filter(front, h)) == Plus(TotalsOf(Filter(front, f)), TotalsOf(Filter(front, g)))
    ensures TotalsOf(Filter(front + [p], h)) == Plus(TotalsOf(Filter(front + [p], f)), TotalsOf(Filter(front + [p], g)))
  {
    hide TotalsOf, Plus, Single, Filter;
    TotalsFilterOne(front, p, f);
    TotalsFilterOne(front, p, g);
    TotalsFilterOne(front, p, h);
    var a, b, c := TotalsOf(Filter(front, f)), TotalsOf(Filter(front, g)), Single(p);
    PlusLaws(a, b, c);
    PlusLaws(b, c, a);
    PlusLaws(a, c, b);
  }

  lemma TotalsFilterOne(front: seq<Point>, p: Point, f: Point -> bool)
    ensures TotalsOf(Filter(front + [p], f)) ==
            if f(p) then Plus(TotalsOf(Filter(front, f)), Single(p)) else TotalsOf(Filter(front, f))
  {
    FilterOne(front, p, f);
    if f(p) {
      TotalsOne(Filter(front, f), p);
    } else {
      assert Filter(front + [p], f) == Filter(front, f);
    }
  }

  /** The order in which rows arrive does not matter. */
  lemma {:induction false} InsertTotals(ps: seq<Point>, p: Point, f: Point -> bool)
    ensures TotalsOf(Filter(Insert(ps, p), f)) == TotalsOf(Filter(ps + [p], f))
  {
    if ps != [] && ps[|ps| - 1].ts > p.ts {
      var front, last := ps[..|ps| - 1], ps[|ps| - 1];
      InsertTotals(front, p, f);
      assert ps == front + [last];
      hide TotalsOf, Plus, Single, Filter;
      TotalsFilterOne(Insert(front, p), last, f);
      TotalsFilterOne(front, p, f);
      TotalsFilterOne(front, last, f);
      TotalsFilterOne(ps, p, f);
      var a := TotalsOf(Filter(front, f));
      PlusLaws(a, Single(p), Single(last));
      PlusLaws(a, Single(last), Single(p));
      PlusLaws(Single(p), Single(last), a);
    }
  }

  lemma {:induction false} SortTotals(ps: seq<Point>, f: Point -> bool)
    ensures TotalsOf(Filter(SortByTime(ps), f)) == TotalsOf(Filter(ps, f))
  {
    if ps != [] {
      var front, last := ps[..|ps| - 1], ps[|ps| - 1];
      assert ps == front + [last];
      SortTotals(front, f);
      InsertTotals(SortByTime(front), last, f);
      TotalsFilterOne(SortByTime(front), last, f);
      TotalsFilterOne(front, last, f);
      hide TotalsOf, Filter;
    }
  }

  // ----- Rollup rows --------------------------------------------------------------------

  /** The rows of one series for the minutes from `start` up to `end`, in order. */
  function RowsOf(rollups: map<Slot, Rollup>, key: Key, start: int, end: int): seq<RollupPoint>
    decreases end - start
  {
    if end <= start then []
    else RowsOf(rollups, key, start, end - MINUTE) +
         if Slot(key, end - MINUTE) !in rollups then []
         else [RollupPoint(end - MINUTE, rollups[Slot(key, end - MINUTE)])]
  }

  /** A point has no value exactly when its quality says so. */
  predicate Consistent(p: Point) {
    p.quality == Unavailable <==> ValueOf(p).None?
  }

  lemma {:induction false} NumbersAreRanged(ps: seq<Point>)
    requires forall p <- ps :: Consistent(p)
    ensures Least(Numbers(ps)) == Minimum(ps) && Greatest(Numbers(ps)) == Maximum(ps)
    ensures CountUnavailable(ps) == CountMissing(ps)
  {
    if ps != [] {
      var front, p := ps[..|ps| - 1], ps[|ps| - 1];
      assert p in ps;
      NumbersAreRanged(front);
      if p.numeric.Some? {
        assert (Numbers(front) + [p.numeric.value])[..|Numbers(front)|] == Numbers(front);
      } else {
        assert Numbers(ps) == Numbers(front);
      }
    }
  }

  /** A row tells the totals of the points it was folded from. */
  lemma FoldTellsTotals(cadence: Cadence, ps: seq<Point>)
    requires ps != [] && forall p <- ps :: Consistent(p)
    ensures RowTotals(Fold(cadence, ps)) == TotalsOf(ps)
  {
    NumbersAreRanged(ps);
  }

  function OfSeries(key: Key, r: Range): Point -> bool {
    (p: Point) => p.key == key && r.Has(p.ts)
  }

  /** All points of a series ever collected in a range. */
  function Collected(w: World, key: Key, r: Range): seq<Point> {
    Filter(w.collected, OfSeries(key, r))
  }

  ghost predicate Readable(cadence: Key -> Cadence, w: World) {
    Sound(cadence, w) && forall p <- w.collected :: Consistent(p)
  }

  lemma TotalsOfNone()
    ensures TotalsOf([]) == NOTHING
  {
  }

  /** One minute: its row, if there is one, tells the totals of its points. */
  lemma MinuteTells(cadence: Key -> Cadence, w: World, slot: Slot)
    requires Readable(cadence, w) && slot.minute % MINUTE == 0 && w.rollupFloor <= slot.minute < Mark(w.store)
    ensures TotalsOf(Collected(w, slot.key, Range(slot.minute, slot.minute + MINUTE)))
         == if slot in w.store.rollups then RowTotals(w.store.rollups[slot]) else NOTHING
  {
    hide Fold, TotalsOf, Filter, RowTotals;
    var minute := Range(slot.minute, slot.minute + MINUTE);
    forall p | p in w.collected
      ensures OfSeries(slot.key, minute)(p) <==> InSlot(slot)(p)
    {
      MinuteBounds(p.ts);
    }
    FilterAgree(w.collected, OfSeries(slot.key, minute), InSlot(slot));
    SlotHasPoints(w.collected, slot);
    FilterMembers(w.collected, InSlot(slot));
    TotalsOfNone();
    if slot in w.store.rollups {
      assert RowIsFold(cadence, w.collected, slot, w.store.rollups[slot]);
      FoldTellsTotals(cadence(slot.key), Minute(w.collected, slot));
    }
  }

  /** The rows of any range of folded minutes tell the totals of all points ever collected
      there, whether or not the points are still stored. */
  lemma {:induction false} RowsTell(cadence: Key -> Cadence, w: World, key: Key, start: int, end: int)
    requires Readable(cadence, w) && start % MINUTE == 0 && end % MINUTE == 0
    requires w.rollupFloor <= start && end <= Mark(w.store)
    ensures SumRows(RowsOf(w.store.rollups, key, start, end)) == TotalsOf(Collected(w, key, Range(start, end)))
    decreases end - start
  {
    hide TotalsOf, Plus, Filter, Sound;
    if end <= start {
      TotalsOfNone();
      FilterNone(w.collected, OfSeries(key, Range(start, end)));
    } else {
      var last := end - MINUTE;
      RowsTell(cadence, w, key, start, last);
      MinuteTells(cadence, w, Slot(key, last));
      assert Range(start, last).end <= last;
      TotalsSplit(w.collected, OfSeries(key, Range(start, last)), OfSeries(key, Range(last, end)),
                  OfSeries(key, Range(start, end)));
      var rows := RowsOf(w.store.rollups, key, start, last);
      if Slot(key, last) in w.store.rollups {
        SumRowsOne(rows, RollupPoint(last, w.store.rollups[Slot(key, last)]));
      } else {
        assert RowsOf(w.store.rollups, key, start, end) == rows;
        PlusLaws(SumRows(rows), NOTHING, NOTHING);
        PlusLaws(NOTHING, SumRows(rows), NOTHING);
      }
    }
  }

  // ----- The query ----------------------------------------------------------------------

  function FiguresOf(s: Stats): Totals {
    Totals(s.samples, s.unavailable, s.resets, s.gaps, s.minimum, s.maximum)
  }

  function CombineHybrid(raw: Option<Totals>, rollup: Option<Totals>, kind: Kind): Totals
    requires raw.Some? || rollup.Some?
  {
    if raw.None? then Limited(rollup.value, kind)
    else if rollup.None? then Limited(raw.value, kind)
    else Limited(Plus(rollup.value, raw.value), kind)
  }

  /** What the raw table still holds of a series in a range. */
  function StillStored(s: Store, key: Key, r: Option<Range>): seq<Point> {
    if r.None? then [] else Filter(s.points, OfSeries(key, r.value))
  }

  function RowsFor(s: Store, key: Key, r: Option<Range>): seq<RollupPoint> {
    if r.None? then [] else RowsOf(s.rollups, key, Fetched(r.value).start, Fetched(r.value).end)
  }
  lemma FiguresAreTotals(inside: seq<Point>, kind: Kind)
    ensures FiguresOf(StatsOf(inside, kind)) == Limited(TotalsOf(inside), kind)
  {
  }

  lemma UnitIsSome(w: Window, ps: seq<Point>)
    requires ps != []
    ensures exists p <- ps :: UnitOf(w, SortByTime(ps)) == p.unit
  {
    hide SortByTime, Filter, Sorted;
    var sorted := SortByTime(ps);
    SortSorts(ps);
    assert ps[0] in multiset(sorted);
    var inside := Inside(w, sorted);
    FilterMembers(sorted, Holding(w));
    var p := if inside != [] then inside[|inside| - 1] else sorted[|sorted| - 1];
    assert p in sorted && p in multiset(ps);
  }

  lemma BatchStats(w: Window, ps: seq<Point>)
    requires ps != [] && w.cadence > 0.0
    ensures BatchSummary(w, ps).stats == StatsOf(Inside(w, ps), w.kindOf(UnitOf(w, ps)))
  {
    hide StatsOf, Inside, UnitOf, Expected, Coverage, AreaOf, SecondsOf, Changes, Values;
  }

  /** The batch summary's figures do not depend on the order of the points. */
  lemma BatchFigures(w: Window, ps: seq<Point>, kind: Kind)
    requires ps != [] && w.cadence > 0.0 && forall p <- ps :: w.kindOf(p.unit) == kind
    ensures SortByTime(ps) != []
    ensures FiguresOf(BatchSummary(w, SortByTime(ps)).stats) == Limited(TotalsOf(Inside(w, ps)), kind)
  {
    hide BatchSummary, StatsOf, UnitOf, SortByTime, Filter, Sorted, TotalsOf, FiguresOf, Limited;
    SortSorts(ps);
    assert ps[0] in multiset(SortByTime(ps));
    UnitIsSome(w, ps);
    BatchStats(w, SortByTime(ps));
    FiguresAreTotals(Inside(w, SortByTime(ps)), kind);
    SortTotals(ps, Holding(w));
  }

  /** The seed does not count. */
  lemma SeedIsOutside(w: Window, seed: seq<Point>, rows: seq<Point>)
    requires (forall p <- seed :: !w.Holds(p)) && (forall p <- rows :: w.Holds(p))
    ensures Inside(w, seed + rows) == rows
  {
    hide Filter;
    FilterAppend(seed, rows, Holding(w));
    FilterNone(seed, Holding(w));
    FilterAll(rows, Holding(w));
    assert [] + rows == rows;
  }

  lemma FetchedRows(points: seq<Point>, key: Key, range: Range, w: Window, seed: seq<Point>, kind: Kind)
    requires w.start == range.start && w.end == range.end
    requires forall p <- points :: p.key == key ==> w.kindOf(p.unit) == kind
    requires forall p <- seed :: p.ts < range.start && w.kindOf(p.unit) == kind
    ensures var rows := Filter(points, OfSeries(key, range));
            Inside(w, seed + rows) == rows && forall p <- seed + rows :: w.kindOf(p.unit) == kind
  {
    hide Filter;
    FilterMembers(points, OfSeries(key, range));
    SeedIsOutside(w, seed, Filter(points, OfSeries(key, range)));
  }

  /** Feeds rows one by one to a streaming summary. */
  method StreamRows(w: Window, rows: seq<Point>) returns (s: Summary)
    requires rows != [] && w.cadence > 0.0
    ensures s == Finished(w, rows)
  {
    hide *;
    var accumulator := new StreamingSummary(w);
    for n := 0 to |rows|
      invariant accumulator.Valid() && accumulator.w == w && accumulator.fed == rows[..n] && fresh(accumulator)
    {
      accumulator.Add(rows[n]);
      assert rows[..n + 1] == rows[..n] + [rows[n]];
    }
    assert rows[..|rows|] == rows;
    s := accumulator.Finish();
  }

  /** The streaming summary's figures are those of the points inside, in whatever order they were. */
  lemma StreamFigures(w: Window, ps: seq<Point>, kind: Kind)
    requires ps != [] && w.cadence > 0.0 && forall p <- ps :: w.kindOf(p.unit) == kind
    ensures SortByTime(ps) != []
    ensures FiguresOf(Finished(w, SortByTime(ps)).stats) == Limited(TotalsOf(Inside(w, ps)), kind)
  {
    hide StatsOf, SortByTime, Filter, Sorted, TotalsOf, FiguresOf, Limited, Finished;
    var sorted := SortByTime(ps);
    SortSorts(ps);
    assert ps[0] in multiset(sorted);
    forall p | p in sorted
      ensures w.kindOf(p.unit) == kind
    {
      assert p in multiset(sorted);
    }
    assert sorted[0] in sorted;
    FinishedStats(w, sorted);
    FiguresAreTotals(Inside(w, sorted), kind);
    SortTotals(ps, Holding(w));
  }

  /** What the raw rows of a range say, summarised at once or streamed as the plan decides. */
  method RawPartOf(m: MetricStore, key: Key, kind: Kind, range: Range, settings: Window, seed: Option<Point>,
                   stream: bool)
    returns (t: Option<Totals>)
    requires settings.cadence > 0.0
    requires forall p <- m.points :: p.key == key ==> settings.kindOf(p.unit) == kind
    requires seed.Some? ==> seed.value.ts < range.start && settings.kindOf(seed.value.unit) == kind
    ensures var stored := Filter(m.points, OfSeries(key, range));
            if t.None? then stored == [] else t.value == Limited(TotalsOf(stored), kind)
  {
    hide *;
    var before := if seed.Some? then [seed.value] else [];
    var rows := before + Filter(m.points, OfSeries(key, range));
    if rows == [] {
      return None;
    }
    var window := settings.(start := range.start, end := range.end);
    FetchedRows(m.points, key, range, window, before, kind);
    var s: Summary;
    if stream {
      StreamFigures(window, rows, kind);
      s := StreamRows(window, SortByTime(rows));
    } else {
      BatchFigures(window, rows, kind);
      var batch, _ := RawSummary(window, rows, false);
      s := batch;
    }
    return Some(FiguresOf(s.stats));
  }

  ghost predicate IsPart(part: Option<Totals>, whole: Totals, kind: Kind) {
    if part.None? then whole == NOTHING else part.value == Limited(whole, kind)
  }

  /** The parts of an answer, each with its limits applied, combine to the limited whole. */
  lemma PartsCombine(early: Totals, late: Totals, raw: Option<Totals>, rollup: Option<Totals>, kind: Kind)
    requires IsPart(rollup, early, kind) && IsPart(raw, late, kind)
    ensures raw.Some? && rollup.Some? ==> IsPart(Some(CombineHybrid(raw, rollup, kind)), Plus(early, late), kind)
    ensures raw.None? && rollup.Some? ==> CombineHybrid(raw, rollup, kind) == rollup.value
    ensures raw.Some? && rollup.None? ==> CombineHybrid(raw, rollup, kind) == raw.value
    ensures raw.None? ==> IsPart(rollup, Plus(early, late), kind)
    ensures rollup.None? ==> IsPart(raw, Plus(early, late), kind)
  {
    hide Plus, Limited;
    PlusLaws(early, late, NOTHING);
    PlusLaws(early, NOTHING, NOTHING);
    PlusLaws(late, NOTHING, NOTHING);
    LimitedPlus(early, late, kind);
  }

  lemma LimitedPlus(a: Totals, b: Totals, kind: Kind)
    ensures Limited(Plus(Limited(a, kind), Limited(b, kind)), kind) == Limited(Plus(a, b), kind)
    ensures Limited(Limited(a, kind), kind) == Limited(a, kind) && Limited(Limited(b, kind), kind) == Limited(b, kind)
  {
  }

  /** The answer for one series under a plan; `None` when no row of it was found. `seed` is the
      last point before the raw range, if it is recent enough. */
  method Answer(m: MetricStore, key: Key, kind: Kind, plan: Plan, settings: Window, seed: Option<Point>)
    returns (r: Option<Totals>)
    requires settings.cadence > 0.0
    requires forall p <- m.points :: p.key == key ==> settings.kindOf(p.unit) == kind
    requires seed.Some? ==> plan.raw.Some? && seed.value.ts < plan.raw.value.start
    requires seed.Some? ==> settings.kindOf(seed.value.unit) == kind
    requires plan.mode == Mode.Hybrid <==> plan.raw.Some? && plan.rollup.Some?
    ensures var direct := Plus(SumRows(RowsFor(m.View(), key, plan.rollup)),
                               TotalsOf(StillStored(m.View(), key, plan.raw)));
            if r.None? then direct == NOTHING else r.value == Limited(direct, kind)
  {
    hide TotalsOf, SumRows, Filter, RowsOf, Plus, Limited, CombineHybrid;
    TotalsOfNone();
    SumOfNone();
    ghost var stored := StillStored(m.View(), key, plan.raw);
    var raw: Option<Totals>, rollup: Option<Totals> := None, None;
    if plan.raw.Some? {
      raw := RawPartOf(m, key, kind, plan.raw.value, settings, seed, plan.stream);
    }
    var rows := RowsFor(m.View(), key, plan.rollup);
    if rows != [] {
      var c := RollupSummary(rows, plan.rollup.value, settings.cadence, kind);
      rollup := Some(c.totals);
    }
    PartsCombine(SumRows(rows), TotalsOf(stored), raw, rollup, kind);
    if raw.None? && rollup.None? {
      r := None;
    } else if plan.mode == Mode.Hybrid {
      r := Some(CombineHybrid(raw, rollup, kind));
    } else {
      r := if raw.Some? then raw else rollup;
    }
  }

  // ----- Agreement ----------------------------------------------------------------------

  /** Some table still answers for every second of the window, in whole minutes where that
      table is the rollup table. */
  predicate Whole(q: Query) {
    && q.window.start % MINUTE == 0 && q.now - ROLLUP_RETENTION <= q.window.start <= q.window.end <= q.now
    && (q.Watermark().None? ==> q.window.start >= q.Cutoff())
    && (q.Watermark().Some? ==>
          && (q.window.start >= q.Cutoff() || q.Watermark().value >= q.Cutoff() || q.Watermark().value >= q.window.end)
          && (q.Watermark().value < q.window.end || q.window.end % MINUTE == 0))
  }

  /** The tables as a query at some later time reads them. */
  ghost predicate ReadBy(w: World, q: Query) {
    && w.clock <= q.now && q.rawSeconds == RAW_RETENTION
    && (w.store.watermark.Some? ==> q.stored == Stored.Stored(w.store.watermark.value))
    && (w.store.watermark.None? ==> q.stored == Absent)
  }

  /** What is left of the raw points is complete wherever a plan reads them. */
  lemma RawIsComplete(cadence: Key -> Cadence, w: World, key: Key, r: Range)
    requires Sound(cadence, w) && w.rawFloor <= r.start
    ensures Filter(w.store.points, OfSeries(key, r)) == Collected(w, key, r)
  {
    FilterFilter(w.collected, NotBefore(w.rawFloor), OfSeries(key, r), OfSeries(key, r));
  }

  /** The ranges of a plan for a whole window meet without a gap. */
  lemma WholePlanMeets(q: Query, plan: Plan)
    requires Whole(q) && CostAwarePlan(q) == Some(plan)
    ensures plan.rollup.Some? ==>
              && plan.rollup.value.start == q.window.start && plan.rollup.value.end % MINUTE == 0
              && plan.rollup.value.end <= q.Watermark().value && q.Watermark().Some?
              && plan.rollup.value.end == if plan.raw.Some? then plan.raw.value.start else q.window.end
    ensures plan.rollup.None? && plan.raw.Some? ==> plan.raw.value.start == q.window.start
    ensures plan.raw.Some? ==> plan.raw.value.end == q.window.end && plan.raw.value.start >= q.Cutoff()
    ensures plan.raw.None? && plan.rollup.None? ==> q.window.start == q.window.end
  {
    WatermarkIsCompletedMinute(q.stored, q.now);
  }

  /** The figures of a planned answer are those of the direct summary of every point that was
      ever collected in the window. */
  lemma HybridIsExact(cadence: Key -> Cadence, w: World, key: Key, q: Query, plan: Plan)
    requires Readable(cadence, w) && ReadBy(w, q) && Whole(q) && CostAwarePlan(q) == Some(plan)
    ensures Plus(SumRows(RowsFor(w.store, key, plan.rollup)), TotalsOf(StillStored(w.store, key, plan.raw)))
         == TotalsOf(Collected(w, key, q.window))
  {
    WholePlanMeets(q, plan);
    hide CostAwarePlan, TotalsOf, Filter, Plus;
    var middle := if plan.raw.Some? then plan.raw.value.start else q.window.end;
    var early, late := Range(q.window.start, middle), Range(middle, q.window.end);
    EarlyPart(cadence, w, key, q, plan, early);
    if plan.raw.Some? {
      RawIsComplete(cadence, w, key, late);
    } else {
      FilterNone(w.collected, OfSeries(key, late));
    }
    TotalsSplit(w.collected, OfSeries(key, early), OfSeries(key, late), OfSeries(key, q.window));
  }

  lemma WholeMinutesAreFetched(r: Range)
    requires r.start % MINUTE == 0 && r.end % MINUTE == 0
    ensures Fetched(r) == r
  {
    hide FloorMinute;
    WholeMinute(r.start, r.start);
    WholeMinute(r.end, r.end);
  }

  lemma EarlyPart(cadence: Key -> Cadence, w: World, key: Key, q: Query, plan: Plan, early: Range)
    requires Readable(cadence, w) && ReadBy(w, q) && Whole(q) && early.start == q.window.start
    requires if plan.rollup.Some?
             then && plan.rollup.value == early && early.end % MINUTE == 0
                  && q.Watermark().Some? && early.end <= q.Watermark().value
             else early.end <= early.start
    ensures SumRows(RowsFor(w.store, key, plan.rollup)) == TotalsOf(Collected(w, key, early))
  {
    hide TotalsOf, Filter, SumRows, RowsOf, Fetched, FloorMinute, RowsAreFolds;
    TotalsOfNone();
    SumOfNone();
    if plan.rollup.Some? {
      WholeMinutesAreFetched(early);
      RowsTell(cadence, w, key, early.start, early.end);
    } else {
      FilterNone(w.collected, OfSeries(key, early));
    }
  }

  /** The direct summary of the window over everything collected, as the batch summary has it. */
  lemma DirectSummary(w: World, key: Key, settings: Window, r: Range, kind: Kind)
    requires settings.cadence > 0.0 && settings.start == r.start && settings.end == r.end
    requires Group(w.collected, key) != []
    requires forall p <- w.collected :: p.key == key ==> settings.kindOf(p.unit) == kind
    ensures SortByTime(Group(w.collected, key)) != []
    ensures FiguresOf(BatchSummary(settings, SortByTime(Group(w.collected, key))).stats) ==
              Limited(TotalsOf(Collected(w, key, r)), kind)
  {
    var group := Group(w.collected, key);
    hide BatchSummary, SortByTime, Filter, TotalsOf, FiguresOf, Limited;
    GroupMembers(w.collected, key);
    BatchFigures(settings, group, kind);
    FilterFilter(w.collected, Of(key), Holding(settings), OfSeries(key, r));
  }

  /** A query on the live tables: whatever retention has deleted, the answer for a series is what
      the batch summary of all its points ever collected says. */
  method Ask(m: MetricStore, key: Key, kind: Kind, q: Query, settings: Window, seed: Option<Point>, ghost w: World)
    returns (r: Option<Option<Totals>>)
    requires m.View() == w.store && Readable(m.cadence, w) && ReadBy(w, q) && Whole(q)
    requires settings.cadence > 0.0 && settings.start == q.window.start && settings.end == q.window.end
    requires forall p <- w.collected :: p.key == key ==> settings.kindOf(p.unit) == kind
    requires var plan := CostAwarePlan(q);
             seed.Some? ==> && plan.Some? && plan.value.raw.Some? && seed.value.ts < plan.value.raw.value.start
                            && settings.kindOf(seed.value.unit) == kind
    requires q.window.start < q.window.end
    ensures r.None? <==> CostAwarePlan(q).None?
    ensures r == Some(None) ==> Collected(w, key, q.window) == []
    ensures r.Some? && r.value.Some? && Group(w.collected, key) != [] ==>
              && SortByTime(Group(w.collected, key)) != []
              && r.value.value == FiguresOf(BatchSummary(settings, SortByTime(Group(w.collected, key))).stats)
  {
    assert m.points == w.store.points;
    hide *;
    var planned := CostAwarePlan(q);
    if planned.None? {
      return None;
    }
    AskFacts(m.cadence, w, key, kind, q, settings, planned.value);
    var answer := Answer(m, key, kind, planned.value, settings, seed);
    return Some(answer);
  }

  /** What answers a query and what the answer then says. */
  lemma AskFacts(cadence: Key -> Cadence, w: World, key: Key, kind: Kind, q: Query, settings: Window, plan: Plan)
    requires Readable(cadence, w) && ReadBy(w, q) && Whole(q) && CostAwarePlan(q) == Some(plan)
    requires settings.cadence > 0.0 && settings.start == q.window.start && settings.end == q.window.end
    requires forall p <- w.collected :: p.key == key ==> settings.kindOf(p.unit) == kind
    requires q.window.start < q.window.end
    ensures plan.mode == Mode.Hybrid <==> plan.raw.Some? && plan.rollup.Some?
    ensures forall p <- w.store.points :: p.key == key ==> settings.kindOf(p.unit) == kind
    ensures var direct := Plus(SumRows(RowsFor(w.store, key, plan.rollup)),
                               TotalsOf(StillStored(w.store, key, plan.raw)));
            && direct == TotalsOf(Collected(w, key, q.window))
            && (direct == NOTHING ==> Collected(w, key, q.window) == [])
            && (Group(w.collected, key) != [] ==>
                  && SortByTime(Group(w.collected, key)) != []
                  && FiguresOf(BatchSummary(settings, SortByTime(Group(w.collected, key))).stats) ==
                     Limited(direct, kind))
  {
    hide CostAwarePlan, Filter, BatchSummary, SortByTime, SumRows, RowsFor, StillStored, Whole, RowsAreFolds, Plus;
    ModeNamesRanges(q);
    HybridIsExact(cadence, w, key, q, plan);
    FilterMembers(w.collected, NotBefore(w.rawFloor));
    if Group(w.collected, key) != [] {
      DirectSummary(w, key, settings, q.window, kind);
    }
  }

  /** The rollup part of an answer from sound tables has its average between its extremes. */
  lemma RollupPartIsSensible(cadence: Key -> Cadence, w: World, key: Key, r: Range, kind: Kind)
    requires Sound(cadence, w) && RowsFor(w.store, key, Some(r)) != []
    ensures var c := Condense(RowsFor(w.store, key, Some(r)), r, cadence(key), kind);
            && c.expected >= 1 && 0.0 <= c.coverage <= 1.0
            && (c.average.Some? ==> && c.totals.minimum.Some? && c.totals.maximum.Some?
                                    && c.totals.minimum.value <= c.average.value <= c.totals.maximum.value)
  {
    hide Condense, Filter;
    RowsAreCentred(cadence, w, key, Fetched(r).start, Fetched(r).end);
    CondensedIsSensible(RowsFor(w.store, key, Some(r)), r, cadence(key), kind);
  }

  lemma {:induction false} RowsAreCentred(cadence: Key -> Cadence, w: World, key: Key, start: int, end: int)
    requires RowsAreFolds(cadence, w)
    ensures forall i :: 0 <= i < |RowsOf(w.store.rollups, key, start, end)| ==>
              Centred(RowsOf(w.store.rollups, key, start, end)[i].row)
    decreases end - start
  {
    if start < end {
      RowsAreCentred(cadence, w, key, start, end - MINUTE);
      var slot := Slot(key, end - MINUTE);
      if slot in w.store.rollups {
        assert RowIsFold(cadence, w.collected, slot, w.store.rollups[slot]);
        FoldIsCentred(cadence(key), Minute(w.collected, slot));
      }
    }
  }
}
