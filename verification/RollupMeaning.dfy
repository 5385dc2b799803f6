/** What a rollup row says of its minute's points, and the summary of rows of its rows. */
module RollupMeaning {
  import opened Common
  import opened Series
  import opened Summaries
  import opened SummaryMeaning
  import opened Planner
  import opened Rollups
  import opened RollupSummaries

  // ----- One row ------------------------------------------------------------------------

  function SumNumeric(ps: seq<Point>): real {
    if ps == [] then 0.0
    else SumNumeric(ps[..|ps| - 1]) + if ps[|ps| - 1].numeric.Some? then ps[|ps| - 1].numeric.value else 0.0
  }

  function CountNumeric(ps: seq<Point>): nat {
    if ps == [] then 0 else CountNumeric(ps[..|ps| - 1]) + if ps[|ps| - 1].numeric.Some? then 1 else 0
  }

  lemma {:induction false} NumbersMean(ps: seq<Point>)
    ensures Sum(Numbers(ps)) == SumNumeric(ps) && |Numbers(ps)| == CountNumeric(ps)
  {
    if ps != [] {
      var front, p := ps[..|ps| - 1], ps[|ps| - 1];
      NumbersMean(front);
      if p.numeric.Some? {
        assert (Numbers(front) + [p.numeric.value])[..|Numbers(front)|] == Numbers(front);
      } else {
        assert Numbers(ps) == Numbers(front);
      }
    }
  }

  /** What one point adds to the counts of its row. */
  function RowPart(p: Point, k: Figure): int {
    match k
    case Samples => 1
    case UnavailableOnes => if p.quality == Unavailable then 1 else 0
    case Resets => p.reset
    case Gaps => p.gap
  }

  function RowSum(ps: seq<Point>, k: Figure): int {
    if ps == [] then 0 else RowSum(ps[..|ps| - 1], k) + RowPart(ps[|ps| - 1], k)
  }

  lemma {:induction false} RowCounts(ps: seq<Point>)
    ensures |ps| == RowSum(ps, Samples) && CountUnavailable(ps) == RowSum(ps, UnavailableOnes)
    ensures SumResets(ps) == RowSum(ps, Resets) && SumGaps(ps) == RowSum(ps, Gaps)
  {
    if ps != [] {
      RowCounts(ps[..|ps| - 1]);
    }
  }

  /** The time that a number of samples takes at a cadence. */
  function Taken(cadence: real, m: int): real {
    m as real * cadence
  }

  /** The least whole number, at least one, of samples that take the given time. */
  ghost predicate LeastFilling(n: int, cadence: real, time: real) {
    n >= 1 && Taken(cadence, n) >= time && forall m :: 1 <= m < n ==> Taken(cadence, m) < time
  }

  lemma CeilFills(cadence: real, time: real)
    requires cadence > 0.0
    ensures LeastFilling(Max(1, Ceil(time / cadence)), cadence, time)
  {
    var n, q := Max(1, Ceil(time / cadence)), time / cadence;
    TimesDivisor(time, cadence);
    assert q <= n as real;
    Scale(q, n as real, cadence);
    forall m | 1 <= m < n
      ensures Taken(cadence, m) < time
    {
      assert m as real < q;
      ScaleLess(m as real, q, cadence);
    }
  }

  /** The counts of a row are those of its points, its average is the mean of their numbers, its
      expectation the least number of samples that fill the minute, its coverage their share. */
  lemma FoldMeans(cadence: Cadence, ps: seq<Point>)
    requires ps != []
    ensures var row := Fold(cadence, ps);
            && row.samples == RowSum(ps, Samples) && row.unavailable == RowSum(ps, UnavailableOnes)
            && row.resets == RowSum(ps, Resets) && row.gaps == RowSum(ps, Gaps) && row.unit == ps[0].unit
            && row.average == (if CountNumeric(ps) == 0 then None else Some(SumNumeric(ps) / CountNumeric(ps) as real))
            && LeastFilling(row.expected, cadence, 60.0)
            && row.coverage == Coverage(|ps|, row.expected)
  {
    hide Coverage, Sum, Numbers, RowSum, SumNumeric, CountNumeric, Ceil, CountUnavailable, SumResets, SumGaps;
    hide WorstQuality, Least, Greatest, LeastFilling;
    NumbersMean(ps);
    RowCounts(ps);
    CeilFills(cadence, 60.0);
  }

  /** A point belongs to the whole minute it was taken in. */
  lemma SlotMeans(p: Point)
    ensures var slot := SlotOf(p);
            slot.key == p.key && slot.minute % 60 == 0 && slot.minute <= p.ts < slot.minute + 60
  {
  }

  // ----- One pass -----------------------------------------------------------------------

  /** A batch starts at the watermark, or at the minute of the first point while there is none, and takes
      as many completed minutes as there are, but no more than four hours. */
  lemma DueMeans(s: Store, now: int)
    requires s.points != []
    ensures var due, marked := Due(s, now), s.watermark.Some? && s.watermark.value > 0;
            && (marked ==> due.start == s.watermark.value)
            && (!marked ==> && due.start % 60 == 0 && (forall p <- s.points :: due.start <= p.ts)
                            && exists p <- s.points :: p.ts < due.start + 60)
            && (|| (due.end == due.start + 4 * 3600 && due.end <= now)
                || (due.end % 60 == 0 && due.end <= now < due.end + 60 && due.end <= due.start + 4 * 3600))
  {
    EarliestIsLeast(s.points);
    hide Earliest;
  }

  /** The `i`-th point is the last of its slot to bring a new unit. */
  ghost predicate BringsLastUnit(ps: seq<Point>, slot: Slot, i: int) {
    && 0 <= i < |ps| && SlotOf(ps[i]) == slot
    && (forall j :: 0 <= j < i ==> !(SlotOf(ps[j]) == slot && ps[j].unit == ps[i].unit))
    && (forall j :: i < j < |ps| && SlotOf(ps[j]) == slot ==> SeenBefore(ps, slot, ps[j].unit, j))
  }

  ghost predicate SeenBefore(ps: seq<Point>, slot: Slot, unit: string, j: int) {
    exists k :: 0 <= k < j <= |ps| && SlotOf(ps[k]) == slot && ps[k].unit == unit
  }

  lemma {:induction false} LastUnitStays(ps: seq<Point>, slot: Slot) returns (i: int)
    requires slot in SlotsOf(ps)
    ensures BringsLastUnit(ps, slot, i) && LastOf(FirstSeen(ps), slot) == Some(GroupKey(slot, ps[i].unit))
  {
    hide SlotOf;
    var front, p := ps[..|ps| - 1], ps[|ps| - 1];
    assert ps == front + [p];
    FirstSeenMembers(front);
    if SlotOf(p) == slot && GroupKeyOf(p) !in FirstSeen(front) {
      i := |ps| - 1;
      assert forall j :: 0 <= j < i ==> ps[j] in front;
    } else {
      if SlotOf(p) == slot {
        var q :| q in front && GroupKeyOf(q) == GroupKeyOf(p);
        assert SlotOf(q) == slot;
      }
      i := LastUnitStays(front, slot);
      LaterUnits(front, p, slot, i);
    }
  }

  lemma LaterUnits(front: seq<Point>, p: Point, slot: Slot, i: int)
    requires BringsLastUnit(front, slot, i)
    requires SlotOf(p) == slot ==> exists q <- front :: GroupKeyOf(q) == GroupKeyOf(p)
    ensures BringsLastUnit(front + [p], slot, i)
  {
    hide SlotOf;
    var ps := front + [p];
    forall j | i < j < |ps| && SlotOf(ps[j]) == slot
      ensures SeenBefore(ps, slot, ps[j].unit, j)
    {
      if j < |front| {
        assert SeenBefore(front, slot, front[j].unit, j);
        var k :| 0 <= k < j && SlotOf(front[k]) == slot && front[k].unit == front[j].unit;
        assert ps[k] == front[k];
      } else {
        var q :| q in front && GroupKeyOf(q) == GroupKeyOf(p);
        var k :| 0 <= k < |front| && front[k] == q;
        assert ps[k] == q;
      }
    }
  }

  /** The row that folding leaves for a minute describes the points of one unit in that minute: the unit
      that appeared last. */
  lemma RowIsOfLastUnit(cadence: Key -> Cadence, before: map<Slot, Rollup>, ps: seq<Point>, after: map<Slot, Rollup>,
                        slot: Slot)
    requires Overlaid(cadence, before, ps, after) && slot in SlotsOf(ps)
    ensures slot in after
    ensures exists i :: BringsLastUnit(ps, slot, i) &&
              var group := Filter(ps, (p: Point) => SlotOf(p) == slot && p.unit == ps[i].unit);
              group != [] && after[slot] == Fold(cadence(slot.key), group)
  {
    hide Fold, Filter, SlotOf, FirstSeen;
    var i := LastUnitStays(ps, slot);
    var g := GroupKey(slot, ps[i].unit);
    FirstSeenMembers(ps);
    SlotsInOrder(ps, FirstSeen(ps));
    FilterAgree(ps, InGroup(g), (p: Point) => SlotOf(p) == slot && p.unit == ps[i].unit);
  }

  // ----- The summary of rows ------------------------------------------------------------

  function TotalPart(row: Rollup, k: Figure): int {
    match k
    case Samples => row.samples
    case UnavailableOnes => row.unavailable
    case Resets => row.resets
    case Gaps => row.gaps
  }

  function AddRows(rows: seq<RollupPoint>, k: Figure): int {
    if rows == [] then 0 else AddRows(rows[..|rows| - 1], k) + TotalPart(rows[|rows| - 1].row, k)
  }

  lemma {:induction false} RowsAddUp(rows: seq<RollupPoint>)
    ensures var t := SumRows(rows);
            && t.samples == AddRows(rows, Samples) && t.unavailable == AddRows(rows, UnavailableOnes)
            && t.resets == AddRows(rows, Resets) && t.gaps == AddRows(rows, Gaps)
  {
    if rows != [] {
      RowsAddUp(rows[..|rows| - 1]);
      hide Lower, Upper;
    }
  }

  /** The extremes of rows are attained by a row and bound every row's. */
  lemma {:induction false} RowExtremes(rows: seq<RollupPoint>)
    ensures var t := SumRows(rows);
            && (t.minimum.Some? ==> exists i :: 0 <= i < |rows| && rows[i].row.minimum == t.minimum)
            && (t.maximum.Some? ==> exists i :: 0 <= i < |rows| && rows[i].row.maximum == t.maximum)
            && (forall i :: 0 <= i < |rows| && rows[i].row.minimum.Some? ==>
                  t.minimum.Some? && t.minimum.value <= rows[i].row.minimum.value)
            && (forall i :: 0 <= i < |rows| && rows[i].row.maximum.Some? ==>
                  t.maximum.Some? && rows[i].row.maximum.value <= t.maximum.value)
  {
    if rows != [] {
      var front, last := rows[..|rows| - 1], rows[|rows| - 1].row;
      RowExtremes(front);
      var t, u := SumRows(front), SumRows(rows);
      if u.minimum.Some? && u.minimum != last.minimum {
        var i :| 0 <= i < |front| && front[i].row.minimum == t.minimum;
        assert rows[i].row.minimum == u.minimum;
      }
      if u.maximum.Some? && u.maximum != last.maximum {
        var i :| 0 <= i < |front| && front[i].row.maximum == t.maximum;
        assert rows[i].row.maximum == u.maximum;
      }
    }
  }

  lemma {:induction false} WorstRowIs(rows: seq<RollupPoint>)
    requires rows != []
    ensures forall i :: 0 <= i < |rows| ==> Rank(rows[i].row.quality) <= Rank(WorstRow(rows))
    ensures exists i :: 0 <= i < |rows| && rows[i].row.quality == WorstRow(rows)
  {
    var front := rows[..|rows| - 1];
    assert rows[|rows| - 1].row.quality == rows[|rows| - 1].row.quality;
    if front == [] {
      assert rows[0].row.quality == WorstRow(rows);
    } else {
      WorstRowIs(front);
      var i :| 0 <= i < |front| && front[i].row.quality == WorstRow(front);
      assert rows[i].row.quality == WorstRow(front);
    }
  }

  /** How many seconds of the first `k` of a minute lie in a range. */
  function SecondsIn(minute: int, r: Range, k: nat): nat {
    if k == 0 then 0 else SecondsIn(minute, r, k - 1) + if r.Has(minute + k - 1) then 1 else 0
  }

  lemma {:induction false} OverlapMeans(minute: int, r: Range, k: nat)
    requires r.start <= r.end
    ensures SecondsIn(minute, r, k) == Max(0, Min(r.end, minute + k) - Max(r.start, minute))
  {
    if k > 0 {
      OverlapMeans(minute, r, k - 1);
    }
  }

  /** A row covers its seconds inside the range, in proportion to the samples that had a value. */
  lemma CoveredMeans(p: RollupPoint, r: Range)
    requires r.start <= r.end
    ensures Covered(p, r) == SecondsIn(p.minute, r, 60) as real
                             * Coverage(Max(0, p.row.samples - p.row.unavailable), Max(1, p.row.expected))
  {
    OverlapMeans(p.minute, r, 60);
  }

  /** Covered seconds of the rows that have an average, and their averages so weighted. */
  function CoveredSeconds(rows: seq<RollupPoint>, r: Range): real {
    if rows == [] then 0.0
    else CoveredSeconds(rows[..|rows| - 1], r) +
         if rows[|rows| - 1].row.average.Some? then Covered(rows[|rows| - 1], r) else 0.0
  }

  function CoveredSum(rows: seq<RollupPoint>, r: Range): real {
    if rows == [] then 0.0
    else
      var p := rows[|rows| - 1];
      CoveredSum(rows[..|rows| - 1], r) + if p.row.average.Some? then p.row.average.value * Covered(p, r) else 0.0
  }

  lemma {:induction false} SharesMean(rows: seq<RollupPoint>, r: Range)
    ensures SumWeights(Shares(rows, r)) == CoveredSeconds(rows, r)
    ensures SumProducts(Shares(rows, r)) == CoveredSum(rows, r)
  {
    if rows == [] {
      SharesOfNone(r);
    } else {
      hide Shares, SumWeights, SumProducts, Covered;
      var front, p := rows[..|rows| - 1], rows[|rows| - 1];
      assert rows == front + [p];
      SharesMean(front, r);
      SharesOne(front, p, r);
    }
  }

  function ExpectedSum(rows: seq<RollupPoint>): int {
    if rows == [] then 0 else ExpectedSum(rows[..|rows| - 1]) + rows[|rows| - 1].row.expected
  }

  lemma {:induction false} ExpectedAddsUp(rows: seq<RollupPoint>)
    ensures SumExpected(rows) == ExpectedSum(rows)
  {
    if rows != [] {
      ExpectedAddsUp(rows[..|rows| - 1]);
    }
  }

  ghost predicate FillsRest(n: int, cadence: real, missing: int) {
    LeastFilling(n, cadence, missing as real)
  }

  /** The expectation of a range: that of its rows, and the samples that fill the time without rows. */
  lemma ExpectationMeans(rows: seq<RollupPoint>, r: Range, cadence: Cadence)
    ensures var missing := r.end - r.start - 60 * |rows|;
            if missing <= 0 then ExpectedIn(rows, r, cadence) == Max(1, ExpectedSum(rows))
            else exists n :: FillsRest(n, cadence, missing)
                             && ExpectedIn(rows, r, cadence) == Max(1, ExpectedSum(rows) + n)
  {
    ExpectedAddsUp(rows);
    var missing := r.end - r.start - 60 * |rows|;
    if missing > 0 {
      CeilFills(cadence, missing as real);
      hide LeastFilling, Ceil, SumExpected, ExpectedSum;
      assert FillsRest(Max(1, Ceil(missing as real / cadence)), cadence, missing);
    }
  }

  /** The remaining fields: for gauges and rates the average is the mean of the row averages weighted by
      covered seconds; metrics with transitions have no quality; first and last second are those
      of the first and the last row. */
  lemma CondensedMeans(rows: seq<RollupPoint>, r: Range, cadence: Cadence, kind: Kind)
    requires rows != []
    ensures var c, t, ranged := Condense(rows, r, cadence, kind), SumRows(rows), kind == Gauge || kind == Rate;
            && c.totals == (if ranged then t else t.(minimum := None, maximum := None))
            && c.quality == (if kind == Categorical || kind == Identity || kind == Timestamp then Unavailable
                             else WorstRow(rows))
            && c.expected == ExpectedIn(rows, r, cadence) && c.coverage == Coverage(t.samples, c.expected)
            && c.first == rows[0].minute && c.last == rows[|rows| - 1].minute + 59
            && c.unit == rows[|rows| - 1].row.unit
            && (c.numeric <==> ranged || (c.unit != "state" && c.unit != "endpoint" && c.unit != "text"))
            && c.weightedSeconds == (if ranged then CoveredSeconds(rows, r) else 0.0)
            && c.average == (if ranged && CoveredSeconds(rows, r) != 0.0
                             then Some(CoveredSum(rows, r) / CoveredSeconds(rows, r)) else None)
  {
    hide SumRows, ExpectedIn, Coverage, WorstRow, Shares, SumWeights, SumProducts, CoveredSeconds, CoveredSum;
    SharesMean(rows, r);
  }
}
