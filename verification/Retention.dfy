/** Whole runs of collection and maintenance: with timely passes no raw point is deleted
    before it is part of its minute's rollup row. */
module Retention {
  import opened Common
  import opened Series
  import opened Planner
  import opened Scans
  import opened Rollups

  /** The longest gap between two passes, and the largest lag a pass can start from, such
      that no point is lost. */
  const LONGEST_GAP := 14400
  const LARGEST_LAG := 36000

  /** The tables together with what has happened to them: every point ever collected, the
      wall clock, and bounds below which raw points and rollup rows may have been deleted. */
  datatype World = World(store: Store, collected: seq<Point>, clock: int, rawFloor: int, rollupFloor: int)

  /** Every rollup row is the fold of all points ever collected in its minute, and every minute
      below the watermark with points has a row, back to the retention bound. */
  ghost predicate RowsAreFolds(cadence: Key -> Cadence, w: World) {
    && (forall slot <- w.store.rollups :: RowIsFold(cadence, w.collected, slot, w.store.rollups[slot]))
    && (forall slot <- w.store.rollups :: slot.minute < Mark(w.store))
    && (forall slot <- SlotsOf(w.collected) :: w.rollupFloor <= slot.minute < Mark(w.store) ==> slot in w.store.rollups)
  }

  ghost predicate RowIsFold(cadence: Key -> Cadence, collected: seq<Point>, slot: Slot, row: Rollup) {
    Minute(collected, slot) != [] && row == Fold(cadence(slot.key), Minute(collected, slot))
  }

  ghost predicate Arrivals(w: World) {
    && (forall p <- w.collected :: 0 <= p.ts <= w.clock)
    && OneUnitEach(w.collected)
  }

  ghost predicate Bounds(w: World) {
    && 0 <= Mark(w.store) <= w.clock && Mark(w.store) % MINUTE == 0
    && w.rawFloor <= Mark(w.store) && w.rawFloor <= w.clock - RAW_RETENTION
    && w.rollupFloor <= w.clock - ROLLUP_RETENTION
  }

  /** Nothing is lost: what is no longer among the raw points lies below the watermark. */
  ghost predicate Sound(cadence: Key -> Cadence, w: World) {
    && Arrivals(w) && Bounds(w)
    && w.store.points == Filter(w.collected, NotBefore(w.rawFloor))
    && RowsAreFolds(cadence, w)
  }

  /** How far the watermark (or, before there is one, the first point) is behind. */
  function Lag(s: Store, now: int): int {
    if Mark(s) > 0 then now - Mark(s)
    else if s.points == [] then 0
    else now - FloorMinute(Earliest(s.points))
  }

  /** Up to where the points are folded once a pass at `now` has folded its batch. */
  function NewMark(s: Store, now: int): int {
    if s.points == [] then FloorMinute(now)
    else Max(Due(s, now).start, Due(s, now).end)
  }

  /** A pass at `now` deletes no point that it has not folded. */
  predicate Lossless(s: Store, now: int) {
    forall p <- s.points :: p.ts < now - RAW_RETENTION ==> p.ts < NewMark(s, now)
  }

  /** A pass folds everything that it may delete exactly when it starts with a lag of no more
      than the batch size plus raw retention. */
  lemma BatchReachesCutoff(s: Store, now: int)
    requires s.points != []
    ensures NewMark(s, now) >= now - RAW_RETENTION <==> now - Due(s, now).start <= LARGEST_LAG
  {
    MinuteBounds(now);
  }

  // ----- Folding ------------------------------------------------------------------------

  lemma EarliestBound(w: World)
    requires Arrivals(w) && Bounds(w) && w.store.points == Filter(w.collected, NotBefore(w.rawFloor))
               && w.store.points != []
    ensures 0 <= Earliest(w.store.points) <= w.clock
    ensures Mark(w.store) == 0 ==> forall p <- w.collected :: Earliest(w.store.points) <= p.ts
  {
    EarliestIsLeast(w.store.points);
    FilterMembers(w.collected, NotBefore(w.rawFloor));
  }

  /** A minute's points lie between its start and the next minute's. */
  lemma SlotBounds(ps: seq<Point>, slot: Slot, r: Range)
    requires r.start % MINUTE == 0 && r.end % MINUTE == 0
    ensures forall p :: SlotOf(p) == slot ==> (r.Has(p.ts) <==> r.Has(slot.minute))
  {
    forall p: Point | SlotOf(p) == slot
      ensures r.Has(p.ts) <==> r.Has(slot.minute)
    {
      MinuteBounds(p.ts);
    }
  }

  /** The batch of a pass holds whole minutes, each with all its points. */
  lemma BatchIsWhole(collected: seq<Point>, floor: int, r: Range, slot: Slot)
    requires r.start % MINUTE == 0 && r.end % MINUTE == 0 && floor <= r.start
    ensures Minute(Filter(Filter(collected, NotBefore(floor)), InRange(r)), slot)
         == if r.Has(slot.minute) then Minute(collected, slot) else []
  {
    SlotBounds(collected, slot, r);
    FilterFilter(collected, NotBefore(floor), InRange(r), InRange(r));
    var batch := Filter(collected, InRange(r));
    if r.Has(slot.minute) {
      FilterFilter(collected, InRange(r), InSlot(slot), InSlot(slot));
    } else {
      FilterMembers(collected, InRange(r));
      FilterNone(batch, InSlot(slot));
    }
  }

  lemma BatchSlots(collected: seq<Point>, floor: int, r: Range, slot: Slot)
    requires r.start % MINUTE == 0 && r.end % MINUTE == 0 && floor <= r.start
    ensures slot in SlotsOf(Filter(Filter(collected, NotBefore(floor)), InRange(r)))
       <==> slot in SlotsOf(collected) && r.Has(slot.minute)
  {
    BatchIsWhole(collected, floor, r, slot);
    SlotHasPoints(collected, slot);
    SlotHasPoints(Filter(Filter(collected, NotBefore(floor)), InRange(r)), slot);
  }

  lemma OverlayIsFolds(cadence: Key -> Cadence, w: World, r: Range, f: Store)
    requires Sound(cadence, w) && r.start % MINUTE == 0 && r.end % MINUTE == 0 && Mark(w.store) <= r.start < r.end
    requires forall slot <- SlotsOf(w.collected) :: Mark(w.store) <= slot.minute ==> r.start <= slot.minute
    requires f.watermark == Some(r.end)
    requires Overlaid(cadence, w.store.rollups, Filter(w.store.points, InRange(r)), f.rollups)
    ensures RowsAreFolds(cadence, w.(store := f))
  {
    hide Fold, Minute, SlotsOf, Filter, Overlaid, MinutesWritten, RowsAreFolds;
    FilterMembers(w.store.points, InRange(r));
    FilterMembers(w.collected, NotBefore(w.rawFloor));
    OverlaidByMinute(cadence, w.store.rollups, Filter(w.store.points, InRange(r)), f.rollups);
    MinutesAreFolds(cadence, w, r, f);
  }

  lemma MinutesAreFolds(cadence: Key -> Cadence, w: World, r: Range, f: Store)
    requires Sound(cadence, w) && r.start % MINUTE == 0 && r.end % MINUTE == 0 && Mark(w.store) <= r.start < r.end
    requires forall slot <- SlotsOf(w.collected) :: Mark(w.store) <= slot.minute ==> r.start <= slot.minute
    requires f.watermark == Some(r.end)
    requires MinutesWritten(cadence, w.store.rollups, Filter(w.store.points, InRange(r)), f.rollups)
    ensures RowsAreFolds(cadence, w.(store := f))
  {
    hide Fold, Minute, SlotsOf, Filter;
    var batch := Filter(w.store.points, InRange(r));
    forall slot: Slot
      ensures slot in SlotsOf(batch) <==> slot in SlotsOf(w.collected) && r.Has(slot.minute)
      ensures r.Has(slot.minute) ==> Minute(batch, slot) == Minute(w.collected, slot)
    {
      BatchSlots(w.collected, w.rawFloor, r, slot);
      BatchIsWhole(w.collected, w.rawFloor, r, slot);
    }
  }

  /** Folding keeps every row a fold of all points of its minute, however late it runs. */
  lemma FoldKeepsSound(cadence: Key -> Cadence, w: World, now: int, f: Store)
    requires Sound(cadence, w) && w.clock <= now && Folded(cadence, w.store, now, f)
    ensures Sound(cadence, w.(store := f, clock := now))
  {
    hide Fold, Minute, Filter, RowIsFold, RowsWritten;
    MinuteBounds(now);
    if w.store.points == [] {
      FoldNothing(cadence, w, now, f);
    } else {
      EarliestBound(w);
      var due := Due(w.store, now);
      MinuteBounds(Earliest(w.store.points));
      if due.start < due.end {
        forall slot | slot in SlotsOf(w.collected) && Mark(w.store) <= slot.minute
          ensures due.start <= slot.minute
        {
          var p :| p in w.collected && SlotOf(p) == slot;
          MinuteBounds(p.ts);
        }
        OverlayIsFolds(cadence, w, due, f);
      }
    }
  }

  /** With no raw point left, all minutes up to now are folded already. */
  lemma FoldNothing(cadence: Key -> Cadence, w: World, now: int, f: Store)
    requires Sound(cadence, w) && w.clock <= now && w.store.points == [] && Folded(cadence, w.store, now, f)
    ensures Mark(w.store) <= Mark(f) && RowsAreFolds(cadence, w.(store := f))
  {
    MinuteBounds(now);
    FilterMembers(w.collected, NotBefore(w.rawFloor));
    forall slot | slot in SlotsOf(w.collected)
      ensures slot.minute < Mark(w.store)
    {
      var p :| p in w.collected && SlotOf(p) == slot;
      assert p !in Filter(w.collected, NotBefore(w.rawFloor));
      MinuteBounds(p.ts);
    }
  }

  // ----- Pruning ------------------------------------------------------------------------

  /** The world after retention. */
  function PrunedWorld(w: World): World {
    w.(store := Pruned(w.store, w.clock),
       rawFloor := Min(w.clock - RAW_RETENTION, Mark(w.store)),
       rollupFloor := w.clock - ROLLUP_RETENTION)
  }

  /** Retention loses nothing exactly when no point above the watermark is old enough to be
      deleted. */
  lemma PruneIsSound(cadence: Key -> Cadence, w: World)
    requires Sound(cadence, w)
    ensures Sound(cadence, PrunedWorld(w)) <==>
              forall p <- w.store.points :: p.ts < w.clock - RAW_RETENTION ==> p.ts < Mark(w.store)
  {
    hide Filter, RowsAreFolds;
    PrunedPoints(w.collected, w.rawFloor, w.clock - RAW_RETENTION, Mark(w.store));
    RowsOutliveRetention(cadence, w);
  }

  /** Dropping the points before a cutoff is dropping them before the watermark, unless one of
      them is above it. */
  lemma PrunedPoints(collected: seq<Point>, floor: int, cutoff: int, mark: int)
    requires floor <= mark && floor <= cutoff
    ensures var points := Filter(collected, NotBefore(floor));
            Filter(points, NotBefore(cutoff)) == Filter(collected, NotBefore(Min(cutoff, mark))) <==>
              forall p <- points :: p.ts < cutoff ==> p.ts < mark
  {
    FilterMembers(collected, NotBefore(floor));
    FilterMembers(collected, NotBefore(cutoff));
    FilterMembers(collected, NotBefore(Min(cutoff, mark)));
    FilterFilter(collected, NotBefore(floor), NotBefore(cutoff), NotBefore(cutoff));
    if forall p <- Filter(collected, NotBefore(floor)) :: p.ts < cutoff ==> p.ts < mark {
      FilterAgree(collected, NotBefore(cutoff), NotBefore(Min(cutoff, mark)));
    }
  }

  lemma RowsOutliveRetention(cadence: Key -> Cadence, w: World)
    requires RowsAreFolds(cadence, w) && Bounds(w)
    ensures RowsAreFolds(cadence, PrunedWorld(w))
  {
    hide RowIsFold, SlotsOf;
  }

  // ----- One pass -----------------------------------------------------------------------

  function MaintainedWorld(w: World, folded: Store, now: int): World {
    PrunedWorld(w.(store := folded, clock := now))
  }

  /** A pass keeps the tables sound exactly when it folds whatever it deletes. */
  lemma PassIsSound(cadence: Key -> Cadence, w: World, now: int, folded: Store)
    requires Sound(cadence, w) && w.clock <= now && Folded(cadence, w.store, now, folded)
    ensures Sound(cadence, MaintainedWorld(w, folded, now)) <==> Lossless(w.store, now)
  {
    FoldKeepsSound(cadence, w, now, folded);
    PruneIsSound(cadence, w.(store := folded, clock := now));
    FilterMembers(w.collected, NotBefore(w.rawFloor));
    MarkDecides(cadence, w.store, now, folded);
  }

  lemma MarkDecides(cadence: Key -> Cadence, s: Store, now: int, folded: Store)
    requires Folded(cadence, s, now, folded) && Mark(s) >= 0 && forall p <- s.points :: p.ts >= 0
    ensures Lossless(s, now) <==> forall p <- folded.points :: p.ts < now - RAW_RETENTION ==> p.ts < Mark(folded)
  {
    if s.points != [] {
      EarliestIsLeast(s.points);
      MinuteBounds(Earliest(s.points));
      MinuteBounds(now);
    }
  }

  /** A pass whose lag is within bounds loses nothing and leaves a lag within raw retention. */
  lemma TimelyPass(cadence: Key -> Cadence, w: World, now: int, folded: Store)
    requires Sound(cadence, w) && w.clock <= now && Folded(cadence, w.store, now, folded)
    requires Lag(w.store, now) <= LARGEST_LAG
    ensures Sound(cadence, MaintainedWorld(w, folded, now))
    ensures Lag(Pruned(folded, now), now) <= RAW_RETENTION
  {
    hide Filter, RowsAreFolds, Overlaid;
    if w.store.points != [] {
      BatchReachesCutoff(w.store, now);
    }
    PassIsSound(cadence, w, now, folded);
    FilterMembers(w.collected, NotBefore(w.rawFloor));
    LagAfterFold(cadence, w.store, now, folded);
    PruneKeepsLag(folded, now);
  }

  lemma LagAfterFold(cadence: Key -> Cadence, s: Store, now: int, folded: Store)
    requires Folded(cadence, s, now, folded) && Lag(s, now) <= LARGEST_LAG && Mark(s) >= 0
    requires forall p <- s.points :: p.ts >= 0
    ensures Lag(folded, now) <= RAW_RETENTION
  {
    MinuteBounds(now);
    if s.points != [] {
      EarliestIsLeast(s.points);
      MinuteBounds(Earliest(s.points));
    }
  }

  lemma PruneKeepsLag(s: Store, now: int)
    requires Lag(s, now) <= RAW_RETENTION
    ensures Lag(Pruned(s, now), now) <= RAW_RETENTION
  {
    var pruned := Pruned(s, now);
    if Mark(s) <= 0 && pruned.points != [] {
      FilterMembers(s.points, NotBefore(now - RAW_RETENTION));
      assert pruned.points[0] in pruned.points;
      EarliestIsLeast(pruned.points);
      EarliestIsLeast(s.points);
      FloorIsMonotone(Earliest(s.points), Earliest(pruned.points));
    }
  }

  lemma FloorIsMonotone(a: int, b: int)
    requires a <= b
    ensures FloorMinute(a) <= FloorMinute(b)
  {
  }

  // ----- Runs ---------------------------------------------------------------------------

  /** A cycle stores points stamped with its own time; a pass folds and prunes. */
  datatype Step = Collect(now: int, batch: seq<Point>) | Pass(now: int)

  datatype Run = Begin(world: World) | Then(before: Run, step: Step, world: World)

  ghost predicate Steps(cadence: Key -> Cadence, w: World, step: Step, next: World) {
    && w.clock <= step.now
    && match step
       case Collect(now, batch) =>
         && (forall p <- batch :: p.ts == now)
         && next == w.(store := w.store.(points := w.store.points + batch), collected := w.collected + batch,
                       clock := now)
         && OneUnitEach(next.collected)
       case Pass(now) =>
         exists folded :: Folded(cadence, w.store, now, folded) && next == MaintainedWorld(w, folded, now)
  }

  ghost predicate Legal(cadence: Key -> Cadence, run: Run) {
    match run
    case Begin(w) => Sound(cadence, w)
    case Then(before, step, w) => Legal(cadence, before) && Steps(cadence, before.world, step, w)
  }

  function LastPass(run: Run): Option<int> {
    match run
    case Begin(_) => None
    case Then(before, step, _) => if step.Pass? then Some(step.now) else LastPass(before)
  }

  /** The first pass starts with a lag of at most ten hours, later ones come within four hours
      of the one before. */
  predicate Punctual(run: Run) {
    match run
    case Begin(_) => true
    case Then(before, step, _) =>
      && Punctual(before)
      && (step.Pass? ==>
            if LastPass(before).None? then Lag(before.world.store, step.now) <= LARGEST_LAG
            else step.now - LastPass(before).value <= LONGEST_GAP)
  }

  lemma CollectKeepsSound(cadence: Key -> Cadence, w: World, now: int, batch: seq<Point>, next: World)
    requires Sound(cadence, w) && 0 <= now && Steps(cadence, w, Collect(now, batch), next)
    ensures Sound(cadence, next)
  {
    hide Filter, RowsAreFolds;
    FilterAppend(w.collected, batch, NotBefore(w.rawFloor));
    FilterAll(batch, NotBefore(w.rawFloor));
    CollectKeepsRows(cadence, w, now, batch);
  }

  lemma CollectKeepsRows(cadence: Key -> Cadence, w: World, now: int, batch: seq<Point>)
    requires RowsAreFolds(cadence, w) && Mark(w.store) <= now && Mark(w.store) % MINUTE == 0
    requires forall p <- batch :: p.ts == now
    ensures var more := w.(store := w.store.(points := w.store.points + batch), collected := w.collected + batch,
                           clock := now);
            RowsAreFolds(cadence, more)
  {
    hide Filter, Fold;
    forall slot: Slot | slot.minute < Mark(w.store)
      ensures Minute(w.collected + batch, slot) == Minute(w.collected, slot)
      ensures slot in SlotsOf(w.collected + batch) <==> slot in SlotsOf(w.collected)
    {
      NewPointsAreLater(w.collected, batch, now, Mark(w.store), slot);
    }
    hide Minute, SlotsOf;
  }

  /** Points of now leave every minute below the watermark alone. */
  lemma NewPointsAreLater(collected: seq<Point>, batch: seq<Point>, now: int, mark: int, slot: Slot)
    requires mark <= now && mark % MINUTE == 0 && slot.minute < mark && forall p <- batch :: p.ts == now
    ensures Minute(collected + batch, slot) == Minute(collected, slot)
    ensures slot in SlotsOf(collected + batch) <==> slot in SlotsOf(collected)
  {
    hide Filter;
    WholeMinute(mark, now);
    FilterAppend(collected, batch, InSlot(slot));
    FilterNone(batch, InSlot(slot));
    assert Minute(collected, slot) + [] == Minute(collected, slot);
    SlotHasPoints(collected + batch, slot);
    SlotHasPoints(collected, slot);
  }

  /** New points never increase the lag. */
  lemma CollectKeepsLag(cadence: Key -> Cadence, w: World, now: int, batch: seq<Point>, at: int)
    requires Arrivals(w) && w.clock <= now && (forall p <- batch :: p.ts == now) && 0 <= at <= w.clock
    requires Sound(cadence, w) && Lag(w.store, at) <= RAW_RETENTION
    ensures Lag(w.store.(points := w.store.points + batch), at) <= RAW_RETENTION
  {
    var more := w.store.points + batch;
    if Mark(w.store) <= 0 && more != [] {
      EarliestIsLeast(more);
      MinuteBounds(now);
      if w.store.points != [] {
        EarliestIsLeast(w.store.points);
        EarliestBound(w);
        FloorIsMonotone(Earliest(w.store.points), Earliest(more));
      }
    }
  }

  /** In every run whose passes are punctual the lag of every pass is within bounds and nothing
      is ever lost. */
  lemma {:induction false} NothingIsLost(cadence: Key -> Cadence, run: Run)
    requires Legal(cadence, run) && Punctual(run)
    ensures Sound(cadence, run.world)
    ensures LastPass(run).Some? ==>
              0 <= LastPass(run).value <= run.world.clock && Lag(run.world.store, LastPass(run).value) <= RAW_RETENTION
    ensures run.Then? && run.step.Pass? ==> Lag(run.before.world.store, run.step.now) <= LARGEST_LAG
  {
    match run
    case Begin(_) =>
    case Then(before, step, w) =>
      NothingIsLost(cadence, before);
      match step
      case Collect(now, batch) =>
        CollectKeepsSound(cadence, before.world, now, batch, w);
        if LastPass(before).Some? {
          CollectKeepsLag(cadence, before.world, now, batch, LastPass(before).value);
        }
      case Pass(now) =>
        var folded :| Folded(cadence, before.world.store, now, folded)
          && w == MaintainedWorld(before.world, folded, now);
        TimelyPass(cadence, before.world, now, folded);
  }

  /** What soundness means for one point: it is still there, or it is part of the row of its
      minute and of no other row, or it is past rollup retention. */
  lemma PointIsAccountedFor(cadence: Key -> Cadence, w: World, p: Point)
    requires Sound(cadence, w) && p in w.collected
    ensures p in w.store.points
         || FloorMinute(p.ts) < w.rollupFloor
         || (&& SlotOf(p) in w.store.rollups
             && RowIsFold(cadence, w.collected, SlotOf(p), w.store.rollups[SlotOf(p)])
             && p in Minute(w.collected, SlotOf(p)))
    ensures forall slot <- w.store.rollups :: p in Minute(w.collected, slot) ==> slot == SlotOf(p)
  {
    FilterMembers(w.collected, NotBefore(w.rawFloor));
    MinuteBounds(p.ts);
    forall slot: Slot
      ensures p in Minute(w.collected, slot) <==> SlotOf(p) == slot
    {
      FilterMembers(w.collected, InSlot(slot));
    }
  }

  /** Passes may be configured further apart than that: one that starts eleven hours behind
      deletes a point it has not folded. */
  lemma LatePassLoses(cadence: Key -> Cadence, p: Point)
    requires p.ts == 20000
    ensures var w := World(Store([p], map[], Some(60)), [p], 20000, -ROLLUP_RETENTION, -ROLLUP_RETENTION);
            Sound(cadence, w) && Lag(w.store, 42000) > LARGEST_LAG && !Lossless(w.store, 42000)
  {
    var s := Store([p], map[], Some(60));
    var w := World(s, [p], 20000, -ROLLUP_RETENTION, -ROLLUP_RETENTION);
    assert p in s.points && Due(s, 42000) == Range(60, 14460);
    LateWorldIsSound(cadence, p);
  }

  lemma LateWorldIsSound(cadence: Key -> Cadence, p: Point)
    requires p.ts == 20000
    ensures Sound(cadence, World(Store([p], map[], Some(60)), [p], 20000, -ROLLUP_RETENTION, -ROLLUP_RETENTION))
  {
    FilterAll([p], NotBefore(-ROLLUP_RETENTION));
    hide Filter, Fold;
    assert SlotOf(p).minute == 19980;
    assert SlotsOf([p]) == {SlotOf(p)};
  }

  // ----- The code follows such runs -----------------------------------------------------

  function FirstWorld(run: Run): World {
    match run
    case Begin(w) => w
    case Then(before, _, _) => FirstWorld(before)
  }

  function StepsOf(run: Run): seq<Step> {
    match run
    case Begin(_) => []
    case Then(before, step, _) => StepsOf(before) + [step]
  }

  function Batches(schedule: seq<Step>): seq<Point> {
    if schedule == [] then []
    else Batches(schedule[..|schedule| - 1]) + BatchOf(schedule[|schedule| - 1])
  }

  lemma {:induction false} BatchesGrow(schedule: seq<Step>, n: nat)
    requires n <= |schedule|
    ensures forall p <- Batches(schedule[..n]) :: p in Batches(schedule)
  {
    if n < |schedule| {
      BatchesGrow(schedule[..|schedule| - 1], n);
      assert schedule[..|schedule| - 1][..n] == schedule[..n];
    } else {
      assert schedule[..n] == schedule;
    }
  }

  function BatchOf(step: Step): seq<Point> {
    if step.Collect? then step.batch else []
  }

  lemma BatchesStep(collected: seq<Point>, schedule: seq<Step>, n: nat)
    requires n < |schedule| && OneUnitEach(collected + Batches(schedule))
    ensures collected + Batches(schedule[..n + 1]) == collected + Batches(schedule[..n]) + BatchOf(schedule[n])
    ensures OneUnitEach(collected + Batches(schedule[..n]) + BatchOf(schedule[n]))
  {
    assert schedule[..n + 1][..n] == schedule[..n];
    assert Batches(schedule[..n + 1]) == Batches(schedule[..n]) + BatchOf(schedule[n]);
    hide Batches, OneUnitEach, BatchOf;
    BatchesGrow(schedule, n + 1);
    var more := collected + Batches(schedule[..n]) + BatchOf(schedule[n]);
    assert more == collected + Batches(schedule[..n + 1]);
    forall p | p in more
      ensures p in collected + Batches(schedule)
    {
      assert p in collected || p in Batches(schedule[..n + 1]);
    }
    UnitsOfPart(more, collected + Batches(schedule));
  }

  lemma UnitsOfPart(part: seq<Point>, all: seq<Point>)
    requires OneUnitEach(all) && forall p <- part :: p in all
    ensures OneUnitEach(part)
  {
  }

  /** Wall time never runs backwards, and every point carries the time of its cycle. */
  predicate InTimeOrder(clock: int, schedule: seq<Step>) {
    && (forall i :: 0 <= i < |schedule| ==> clock <= schedule[i].now)
    && (forall i, j :: 0 <= i < j < |schedule| ==> schedule[i].now <= schedule[j].now)
    && (forall step <- schedule :: step.Collect? ==> forall p <- step.batch :: p.ts == step.now)
  }

  method Perform(m: MetricStore, step: Step, ghost w: World) returns (ghost next: World)
    requires m.View() == w.store && w.clock <= step.now
    requires step.Collect? ==> forall p <- step.batch :: p.ts == step.now
    requires OneUnitEach(w.collected + BatchOf(step))
    requires forall p <- w.store.points :: p in w.collected
    modifies m
    ensures Steps(m.cadence, w, step, next) && m.View() == next.store
    ensures forall p <- next.store.points :: p in next.collected
    ensures next.collected == w.collected + BatchOf(step)
    ensures next.clock == step.now
  {
    if step.Collect? {
      m.Insert(step.batch);
      next := w.(store := m.View(), collected := w.collected + step.batch, clock := step.now);
    } else {
      assert w.collected + [] == w.collected;
      m.RunMaintenance(step.now);
      ghost var folded :| Folded(m.cadence, w.store, step.now, folded) && m.View() == Pruned(folded, step.now);
      next := MaintainedWorld(w, folded, step.now);
      FilterMembers(folded.points, NotBefore(step.now - RAW_RETENTION));
    }
  }

  lemma Opening(cadence: Key -> Cadence, w: World)
    requires Sound(cadence, w)
    ensures (forall p <- w.store.points :: p in w.collected) && w.collected + Batches([]) == w.collected
  {
    FilterMembers(w.collected, NotBefore(w.rawFloor));
  }

  /** The tables, worked by any schedule of cycles and passes: with punctual passes nothing is
      lost. */
  method Operate(m: MetricStore, schedule: seq<Step>, ghost w: World) returns (ghost run: Run)
    requires m.View() == w.store && Sound(m.cadence, w)
    requires InTimeOrder(w.clock, schedule) && OneUnitEach(w.collected + Batches(schedule))
    modifies m
    ensures Legal(m.cadence, run) && FirstWorld(run) == w && StepsOf(run) == schedule && run.world.store == m.View()
    ensures Punctual(run) ==> Sound(m.cadence, run.world)
  {
    run := Begin(w);
    hide Sound, Steps, Batches, OneUnitEach, Lag, Punctual, LastPass;
    Opening(m.cadence, w);
    for n := 0 to |schedule|
      invariant Legal(m.cadence, run) && FirstWorld(run) == w && StepsOf(run) == schedule[..n]
                  && run.world.store == m.View()
      invariant run.world.collected == w.collected + Batches(schedule[..n])
      invariant forall p <- run.world.store.points :: p in run.world.collected
      invariant run.world.clock == if n == 0 then w.clock else schedule[n - 1].now
    {
      var step := schedule[n];
      BatchesStep(w.collected, schedule, n);
      assert step in schedule && schedule[..n + 1] == schedule[..n] + [step];
      ghost var next := Perform(m, step, run.world);
      run := Then(run, step, next);
    }
    assert schedule[..|schedule|] == schedule;
    if Punctual(run) {
      NothingIsLost(m.cadence, run);
    }
  }

  const NEW_WORLD := World(Store([], map[], None), [], 0, -ROLLUP_RETENTION, -ROLLUP_RETENTION)

  lemma NewWorldIsSound(cadence: Key -> Cadence)
    ensures Sound(cadence, NEW_WORLD)
  {
  }

  /** The same from a new database on. */
  method OperateNew(cadence: Key -> Cadence, schedule: seq<Step>) returns (m: MetricStore, ghost run: Run)
    requires InTimeOrder(0, schedule) && OneUnitEach(Batches(schedule))
    ensures fresh(m) && m.cadence == cadence && Legal(cadence, run) && FirstWorld(run) == NEW_WORLD
              && StepsOf(run) == schedule
    ensures run.world.store == m.View() && (Punctual(run) ==> Sound(cadence, run.world))
  {
    m := new MetricStore(cadence);
    NewWorldIsSound(cadence);
    assert [] + Batches(schedule) == Batches(schedule);
    run := Operate(m, schedule, NEW_WORLD);
  }
}
