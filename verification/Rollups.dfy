/** The metric tables and their maintenance: complete minutes of raw points are folded into
    rollup rows up to a watermark, then old rows are deleted. */
module Rollups {
  import opened Common
  import opened Series
  import opened Planner
  import opened Summaries
  import opened Scans

  const RAW_RETENTION := 21600
  const ROLLUP_RETENTION := 86400
  const BATCH_SECONDS := 14400

  type Cadence = x: real | x > 0.0 witness 10.0

  datatype Slot = Slot(key: Key, minute: int)

  datatype Rollup = Row(samples: nat, expected: int,
                        minimum: Option<real>, average: Option<real>, maximum: Option<real>,
                        unavailable: nat, resets: int, gaps: int, coverage: real, unit: string, quality: Quality)

  // ----- One minute ---------------------------------------------------------------------

  function SlotOf(p: Point): Slot {
    Slot(p.key, FloorMinute(p.ts))
  }

  function InSlot(slot: Slot): Point -> bool {
    (p: Point) => SlotOf(p) == slot
  }

  /** The points of one series in one minute. */
  function Minute(ps: seq<Point>, slot: Slot): seq<Point> {
    Filter(ps, InSlot(slot))
  }

  function Numbers(ps: seq<Point>): seq<real> {
    if ps == [] then []
    else Numbers(ps[..|ps| - 1]) + if ps[|ps| - 1].numeric.Some? then [ps[|ps| - 1].numeric.value] else []
  }

  function Sum(s: seq<real>): real {
    if s == [] then 0.0 else Sum(s[..|s| - 1]) + s[|s| - 1]
  }

  function Least(s: seq<real>): Option<real> {
    if s == [] then None else Lower(Least(s[..|s| - 1]), Some(s[|s| - 1]))
  }

  function Greatest(s: seq<real>): Option<real> {
    if s == [] then None else Upper(Greatest(s[..|s| - 1]), Some(s[|s| - 1]))
  }

  function CountUnavailable(ps: seq<Point>): nat {
    if ps == [] then 0 else CountUnavailable(ps[..|ps| - 1]) + if ps[|ps| - 1].quality == Unavailable then 1 else 0
  }

  /** The rollup row of one minute. */
  function Fold(cadence: Cadence, ps: seq<Point>): Rollup
    requires ps != []
  {
    var expected := Max(1, Ceil(60.0 / cadence));
    var values := Numbers(ps);
    Row(|ps|, expected,
        Least(values), if values == [] then None else Some(Sum(values) / |values| as real), Greatest(values),
        CountUnavailable(ps), SumResets(ps), SumGaps(ps), Coverage(|ps|, expected), ps[0].unit, WorstQuality(ps))
  }

  lemma {:induction false} ExtremesBound(values: seq<real>)
    requires values != []
    ensures Least(values).Some? && Greatest(values).Some?
    ensures forall v <- values :: Least(values).value <= v <= Greatest(values).value
    ensures Least(values).value in values && Greatest(values).value in values
  {
    var front, last := values[..|values| - 1], values[|values| - 1];
    assert values == front + [last];
    if front != [] {
      ExtremesBound(front);
    } else {
      assert Least(front).None? && Greatest(front).None?;
    }
  }

  lemma {:induction false} SumBounded(values: seq<real>, low: real, high: real)
    requires forall i :: 0 <= i < |values| ==> low <= values[i] <= high
    ensures |values| as real * low <= Sum(values) <= |values| as real * high
  {
    if values != [] {
      SumBounded(values[..|values| - 1], low, high);
      OneMore(|values| - 1, low, high);
    }
  }

  lemma OneMore(n: nat, low: real, high: real)
    ensures (n + 1) as real * low == n as real * low + low && (n + 1) as real * high == n as real * high + high
  {
  }

  lemma {:induction false} NumbersAreValues(ps: seq<Point>)
    ensures forall p <- ps :: p.numeric.Some? ==> p.numeric.value in Numbers(ps)
    ensures forall v <- Numbers(ps) :: exists p <- ps :: p.numeric == Some(v)
  {
    if ps != [] {
      NumbersAreValues(ps[..|ps| - 1]);
      assert ps == ps[..|ps| - 1] + [ps[|ps| - 1]];
    }
  }

  /** A row's extremes bound every value of its minute and are attained, its average lies between
      them, and its quality is the worst of its points. */
  lemma FoldDescribes(cadence: Cadence, ps: seq<Point>)
    requires ps != []
    ensures var row := Fold(cadence, ps);
            && (row.average.Some? <==> exists p <- ps :: p.numeric.Some?)
            && (row.average.Some? ==> && row.minimum.Some? && row.maximum.Some?
                                      && row.minimum.value <= row.average.value <= row.maximum.value)
            && (forall p <- ps :: p.numeric.Some? ==> row.minimum.Some? && row.maximum.Some?
                                                      && row.minimum.value <= p.numeric.value <= row.maximum.value)
            && (row.minimum.Some? ==> exists p <- ps :: p.numeric == row.minimum)
            && (row.maximum.Some? ==> exists p <- ps :: p.numeric == row.maximum)
            && (forall p <- ps :: Rank(p.quality) <= Rank(row.quality)) && (exists p <- ps :: p.quality == row.quality)
  {
    hide Least, Greatest, Sum, WorstQuality, CountUnavailable, Numbers, Coverage;
    var values := Numbers(ps);
    NumbersAreValues(ps);
    WorstIsWorst(ps);
    if values != [] {
      assert values[0] in values;
      ExtremesBound(values);
      forall i | 0 <= i < |values|
        ensures Least(values).value <= values[i] <= Greatest(values).value
      {
        assert values[i] in values;
      }
      AverageBetween(values, Least(values).value, Greatest(values).value);
    } else {
      NoExtremes();
    }
  }

  lemma NoExtremes()
    ensures Least([]).None? && Greatest([]).None?
  {
  }

  lemma AverageBetween(values: seq<real>, low: real, high: real)
    requires values != [] && forall i :: 0 <= i < |values| ==> low <= values[i] <= high
    ensures low <= Sum(values) / |values| as real <= high
  {
    SumBounded(values, low, high);
    Average(|values|, low, Sum(values), high);
  }

  lemma Average(n: nat, low: real, sum: real, high: real)
    requires n > 0 && n as real * low <= sum <= n as real * high
    ensures low <= sum / n as real <= high
  {
  }

  // ----- The tables ---------------------------------------------------------------------

  datatype Store = Store(points: seq<Point>, rollups: map<Slot, Rollup>, watermark: Option<int>)

  function Mark(s: Store): int {
    if s.watermark.Some? then s.watermark.value else 0
  }

  function Earliest(ps: seq<Point>): int
    requires ps != []
  {
    if |ps| == 1 then ps[0].ts else Min(Earliest(ps[..|ps| - 1]), ps[|ps| - 1].ts)
  }

  lemma {:induction false} EarliestIsLeast(ps: seq<Point>)
    requires ps != []
    ensures (exists p <- ps :: p.ts == Earliest(ps)) && (forall p <- ps :: Earliest(ps) <= p.ts)
  {
    assert ps[|ps| - 1] in ps;
    if |ps| > 1 {
      EarliestIsLeast(ps[..|ps| - 1]);
      assert ps == ps[..|ps| - 1] + [ps[|ps| - 1]];
    }
  }

  /** Where the next batch of minutes starts and ends. */
  function Due(s: Store, now: int): Range
    requires s.points != []
  {
    var start := if Mark(s) <= 0 then FloorMinute(Earliest(s.points)) else Mark(s);
    Range(start, Min(FloorMinute(now), start + BATCH_SECONDS))
  }

  function InRange(r: Range): Point -> bool {
    (p: Point) => r.Has(p.ts)
  }

  function SlotsOf(ps: seq<Point>): set<Slot> {
    set p <- ps :: SlotOf(p)
  }

  lemma {:induction false} SlotHasPoints(ps: seq<Point>, slot: Slot)
    ensures Minute(ps, slot) != [] <==> slot in SlotsOf(ps)
  {
    FilterMembers(ps, InSlot(slot));
    if Minute(ps, slot) != [] {
      assert Minute(ps, slot)[0] in Minute(ps, slot);
    }
  }

  /** The rollup rows after folding `ps`, replacing rows that are there already. */
  ghost predicate Overlaid(cadence: Key -> Cadence, before: map<Slot, Rollup>, ps: seq<Point>,
                           after: map<Slot, Rollup>)
  {
    RowsWritten(cadence, before, ps, FirstSeen(ps), after)
  }

  /** The rows after writing one row per group, in this order: the last group of a slot stays. */
  ghost predicate RowsWritten(cadence: Key -> Cadence, before: map<Slot, Rollup>, ps: seq<Point>, order: seq<GroupKey>,
                              after: map<Slot, Rollup>)
  {
    && after.Keys == before.Keys + SlotsIn(order)
    && forall slot <- after ::
         match LastOf(order, slot)
         case None => slot in before && after[slot] == before[slot]
         case Some(g) => GroupRow(cadence, ps, g, after[slot])
  }

  ghost predicate GroupRow(cadence: Key -> Cadence, ps: seq<Point>, g: GroupKey, row: Rollup) {
    Filter(ps, InGroup(g)) != [] && row == Fold(cadence(g.slot.key), Filter(ps, InGroup(g)))
  }

  /** The last group of a slot in an order of groups. */
  function LastOf(order: seq<GroupKey>, slot: Slot): Option<GroupKey> {
    if order == [] then None
    else if order[|order| - 1].slot == slot then Some(order[|order| - 1])
    else LastOf(order[..|order| - 1], slot)
  }

  /** The groups of some rows in the order in which they first appear. */
  function FirstSeen(ps: seq<Point>): seq<GroupKey> {
    if ps == [] then []
    else
      var front, g := FirstSeen(ps[..|ps| - 1]), GroupKeyOf(ps[|ps| - 1]);
      if g in front then front else front + [g]
  }

  lemma {:induction false} FirstSeenMembers(ps: seq<Point>)
    ensures forall g :: g in FirstSeen(ps) <==> exists p <- ps :: GroupKeyOf(p) == g
  {
    if ps != [] {
      FirstSeenMembers(ps[..|ps| - 1]);
      assert ps == ps[..|ps| - 1] + [ps[|ps| - 1]];
    }
  }

  lemma {:induction false} LastOfIs(order: seq<GroupKey>, slot: Slot)
    ensures LastOf(order, slot).Some? <==> slot in SlotsIn(order)
    ensures LastOf(order, slot).Some? ==> LastOf(order, slot).value.slot == slot && LastOf(order, slot).value in order
  {
    if order != [] {
      LastOfIs(order[..|order| - 1], slot);
      assert order == order[..|order| - 1] + [order[|order| - 1]];
    }
  }

  /** With one unit per series each minute's row is the fold of all its points. */
  lemma OverlaidByMinute(cadence: Key -> Cadence, before: map<Slot, Rollup>, ps: seq<Point>, after: map<Slot, Rollup>)
    requires OneUnitEach(ps) && Overlaid(cadence, before, ps, after)
    ensures MinutesWritten(cadence, before, ps, after)
  {
    hide Fold, Filter, Minute;
    FirstSeenMembers(ps);
    SlotsInOrder(ps, FirstSeen(ps));
    forall slot | slot in after
      ensures slot !in SlotsOf(ps) ==> slot in before && after[slot] == before[slot]
      ensures slot in SlotsOf(ps) ==> Minute(ps, slot) != [] && after[slot] == Fold(cadence(slot.key), Minute(ps, slot))
    {
      LastOfIs(FirstSeen(ps), slot);
      if slot in SlotsOf(ps) {
        GroupIsMinute(ps, LastOf(FirstSeen(ps), slot).value);
      }
    }
  }

  ghost predicate MinutesWritten(cadence: Key -> Cadence, before: map<Slot, Rollup>, ps: seq<Point>,
                                 after: map<Slot, Rollup>)
  {
    && after.Keys == before.Keys + SlotsOf(ps)
    && (forall slot <- before :: slot !in SlotsOf(ps) ==> after[slot] == before[slot])
    && (forall slot <- SlotsOf(ps) ::
          Minute(ps, slot) != [] && after[slot] == Fold(cadence(slot.key), Minute(ps, slot)))
  }

  /** What one pass of folding does to the tables. */
  ghost predicate Folded(cadence: Key -> Cadence, s: Store, now: int, t: Store) {
    && t.points == s.points
    && if s.points == [] then t.rollups == s.rollups && t.watermark == Some(FloorMinute(now))
       else
         var due := Due(s, now);
         if due.end <= due.start then t == s
         else t.watermark == Some(due.end) && Overlaid(cadence, s.rollups, Filter(s.points, InRange(due)), t.rollups)
  }

  function NotBefore(t: int): Point -> bool {
    (p: Point) => p.ts >= t
  }

  /** What retention does to the tables. */
  function Pruned(s: Store, now: int): Store {
    s.(points := Filter(s.points, NotBefore(now - RAW_RETENTION)),
       rollups := map slot <- s.rollups | slot.minute >= now - ROLLUP_RETENTION :: s.rollups[slot])
  }

  ghost predicate Maintained(cadence: Key -> Cadence, s: Store, now: int, t: Store) {
    exists folded :: Folded(cadence, s, now, folded) && t == Pruned(folded, now)
  }

  // ----- The code -----------------------------------------------------------------------

  datatype GroupKey = GroupKey(slot: Slot, unit: string)

  function GroupKeyOf(p: Point): GroupKey {
    GroupKey(SlotOf(p), p.unit)
  }

  function InGroup(g: GroupKey): Point -> bool {
    (p: Point) => GroupKeyOf(p) == g
  }

  function SlotsIn(order: seq<GroupKey>): set<Slot> {
    set g <- order :: g.slot
  }

  /** With one unit per series, the group of a slot is all the slot's points. */
  lemma GroupIsMinute(rows: seq<Point>, g: GroupKey)
    requires OneUnitEach(rows) && Filter(rows, InGroup(g)) != []
    ensures Filter(rows, InGroup(g)) == Minute(rows, g.slot)
  {
    FilterMembers(rows, InGroup(g));
    var p := Filter(rows, InGroup(g))[0];
    assert p in Filter(rows, InGroup(g));
    FilterAgree(rows, InGroup(g), InSlot(g.slot));
  }

  lemma SlotsInOrder(rows: seq<Point>, order: seq<GroupKey>)
    requires forall g :: g in order <==> exists p <- rows :: GroupKeyOf(p) == g
    ensures SlotsIn(order) == SlotsOf(rows)
  {
    forall g | g in order
      ensures g.slot in SlotsOf(rows)
    {
      var p :| p in rows && GroupKeyOf(p) == g;
      assert SlotOf(p) == g.slot;
    }
    forall p | p in rows
      ensures SlotOf(p) in SlotsIn(order)
    {
      assert GroupKeyOf(p).slot == SlotOf(p);
    }
  }

  lemma NothingWritten(cadence: Key -> Cadence, before: map<Slot, Rollup>, ps: seq<Point>)
    ensures RowsWritten(cadence, before, ps, [], before)
  {
  }

  lemma WriteOne(cadence: Key -> Cadence, before: map<Slot, Rollup>, ps: seq<Point>, order: seq<GroupKey>, g: GroupKey,
                 after: map<Slot, Rollup>)
    requires RowsWritten(cadence, before, ps, order, after) && Filter(ps, InGroup(g)) != []
    ensures RowsWritten(cadence, before, ps, order + [g],
                        after[g.slot := Fold(cadence(g.slot.key), Filter(ps, InGroup(g)))])
  {
    hide Fold, Filter;
    assert (order + [g])[..|order|] == order;
    assert SlotsIn(order + [g]) == SlotsIn(order) + {g.slot} by {
      assert g in order + [g];
    }
    assert forall slot :: slot != g.slot ==> LastOf(order + [g], slot) == LastOf(order, slot);
  }

  /** The rows of each group, and the groups in the order in which they appear. */
  ghost predicate Grouping(rows: seq<Point>, groups: map<GroupKey, seq<Point>>, order: seq<GroupKey>) {
    && order == FirstSeen(rows)
    && (forall g :: g in groups <==> g in order)
    && (forall g <- groups :: groups[g] == Filter(rows, InGroup(g)) && groups[g] != [])
  }

  lemma NothingGrouped()
    ensures Grouping([], map[], [])
  {
  }

  lemma GroupingStep(rows: seq<Point>, groups: map<GroupKey, seq<Point>>, order: seq<GroupKey>, row: Point)
    requires Grouping(rows, groups, order)
    ensures var g := GroupKeyOf(row);
            if g in groups then Grouping(rows + [row], groups[g := groups[g] + [row]], order)
            else Grouping(rows + [row], groups[g := [row]], order + [g])
  {
    var g, more := GroupKeyOf(row), rows + [row];
    assert more[..|rows|] == rows;
    if g !in groups {
      FirstSeenMembers(rows);
      FilterNone(rows, InGroup(g));
    }
    forall h: GroupKey
      ensures Filter(more, InGroup(h)) == Filter(rows, InGroup(h)) + if h == g then [row] else []
    {
      FilterOne(rows, row, InGroup(h));
    }
    hide Filter;
  }

  class MetricStore {
    const cadence: Key -> Cadence
    var points: seq<Point>
    var rollups: map<Slot, Rollup>
    var watermark: Option<int>

    function View(): Store
      reads this
    {
      Store(points, rollups, watermark)
    }

    constructor (cadence: Key -> Cadence)
      ensures View() == Store([], map[], None) && this.cadence == cadence
    {
      this.cadence := cadence;
      points, rollups, watermark := [], map[], None;
    }

    method Insert(batch: seq<Point>)
      modifies this`points
      ensures View() == old(View()).(points := old(points) + batch)
    {
      points := points + batch;
    }

    /** Groups rows by series, minute and unit, remembering the order in which groups appear. */
    method GroupRows(rows: seq<Point>) returns (groups: map<GroupKey, seq<Point>>, order: seq<GroupKey>)
      ensures Grouping(rows, groups, order)
    {
      hide Grouping;
      groups, order := map[], [];
      NothingGrouped();
      for n := 0 to |rows|
        invariant Grouping(rows[..n], groups, order)
      {
        var row := rows[n];
        GroupingStep(rows[..n], groups, order, row);
        assert rows[..n + 1] == rows[..n] + [row];
        var g := GroupKeyOf(row);
        ghost var before := groups;
        if g !in groups {
          groups, order := groups[g := []], order + [g];
        }
        groups := groups[g := groups[g] + [row]];
        assert [] + [row] == [row];
        assert g !in before ==> groups == before[g := [row]];
      }
      assert rows[..|rows|] == rows;
    }

    method RollupCompletedMinutes(now: int)
      modifies this`rollups, this`watermark
      ensures Folded(cadence, old(View()), now, View())
      ensures points == [] ==>
                watermark.Some? && watermark.value % 60 == 0 && watermark.value <= now < watermark.value + 60
    {
      hide RowsWritten, Filter, Earliest, FirstSeen;
      var completeBefore := FloorMinute(now);
      var start := if watermark.Some? then watermark.value else 0;
      if points == [] {
        watermark := Some(completeBefore);
        return;
      }
      var first := Earliest(points);
      if start <= 0 {
        start := FloorMinute(first);
      }
      var end := Min(completeBefore, start + BATCH_SECONDS);
      if end <= start {
        return;
      }
      var rows := Filter(points, InRange(Range(start, end)));
      WriteRollups(rows);
      watermark := Some(end);
    }

    /** Writes one row per group, in the order in which the groups appear. */
    method WriteRollups(rows: seq<Point>)
      modifies this`rollups
      ensures Overlaid(cadence, old(rollups), rows, rollups)
    {
      hide Fold, RowsWritten, Filter, FirstSeen;
      var groups, order := GroupRows(rows);
      ghost var before := rollups;
      NothingWritten(cadence, before, rows);
      for n := 0 to |order|
        invariant RowsWritten(cadence, before, rows, order[..n], rollups)
      {
        var g := order[n];
        WriteOne(cadence, before, rows, order[..n], g, rollups);
        assert order[..n + 1] == order[..n] + [g];
        rollups := rollups[g.slot := Fold(cadence(g.slot.key), groups[g])];
      }
      assert order[..|order|] == order;
    }

    /** Deletes the points of more than six hours ago and the rollup rows of more than a day ago. */
    method ApplyRetention(now: int)
      modifies this`points, this`rollups
      ensures View() == Pruned(old(View()), now)
      ensures forall p :: p in points <==> p in old(points) && p.ts >= now - 6 * 3600
      ensures forall slot :: slot in rollups <==> slot in old(rollups) && slot.minute >= now - 24 * 3600
      ensures forall slot <- rollups :: rollups[slot] == old(rollups)[slot]
    {
      FilterMembers(points, NotBefore(now - RAW_RETENTION));
      points := Filter(points, NotBefore(now - RAW_RETENTION));
      rollups := map slot <- rollups | slot.minute >= now - ROLLUP_RETENTION :: rollups[slot];
    }

    method RunMaintenance(now: int)
      modifies this
      ensures Maintained(cadence, old(View()), now, View())
    {
      RollupCompletedMinutes(now);
      ghost var folded := View();
      ApplyRetention(now);
    }
  }
}
