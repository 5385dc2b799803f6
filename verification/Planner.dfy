/** Which part of a query window is answered from minute rollups and which from raw points. */
module Planner {
  import opened Common

  const MINUTE := 60

  function FloorMinute(t: int): int {
    t / MINUTE * MINUTE
  }

  function CeilMinute(t: int): int {
    -FloorMinute(-t)
  }

  // ----- Watermark ----------------------------------------------------------------------

  /** The stored watermark text: absent, not a number, or a number. */
  datatype Stored = Absent | NonNumeric | Stored(value: int)

  datatype Status = Unset | InvalidNonNumeric | InvalidNegative | InvalidMisaligned | InvalidFuture | Valid

  function WatermarkStatus(stored: Stored, now: int): (Option<int>, Status) {
    match stored
    case Absent => (None, Unset)
    case NonNumeric => (None, InvalidNonNumeric)
    case Stored(value) =>
      if value < 0 then (None, InvalidNegative)
      else if value % MINUTE != 0 then (None, InvalidMisaligned)
      else if value > FloorMinute(now) then (None, InvalidFuture)
      else (Some(value), Valid)
  }

  // ----- Plan ---------------------------------------------------------------------------

  datatype Range = Range(start: int, end: int) {
    predicate Has(t: int) {
      start <= t < end
    }
  }

  datatype Limits = Limits(maxQueryRows: nat, maxStreamScanRows: nat, maxMaterializedRows: nat)

  /** Everything a plan is computed from; the two counts are what the tables hold in a range. */
  datatype Query = Query(window: Range, now: int, rawSeconds: nat, stored: Stored, limits: Limits,
                         rawRows: Range -> nat, rollupRows: Range -> nat)
  {
    function Cutoff(): int {
      now - rawSeconds
    }

    function Watermark(): Option<int> {
      WatermarkStatus(stored, now).0
    }
  }

  datatype Mode = Raw | Rollup | Hybrid
  datatype Reason = WithinBudget | ByWatermark | ByWatermarkStreaming
                  | MissingWatermark | MissingWatermarkStreaming | InvalidWatermark | InvalidWatermarkStreaming

  datatype Plan = Plan(mode: Mode, raw: Option<Range>, rollup: Option<Range>, rows: nat, reason: Reason, stream: bool)

  /** A count that stops one past its limit. */
  function Bounded(count: nat, limit: nat): nat {
    Min(count, limit + 1)
  }

  /** The minutes of a range that are fetched from the rollup table. */
  function Fetched(r: Range): Range {
    Range(CeilMinute(r.start), FloorMinute(r.end))
  }

  function RollupPart(q: Query): Option<Range> {
    match q.Watermark()
    case None => None
    case Some(mark) =>
      var finalized := Min(q.window.end, Max(q.window.start, mark));
      if finalized > q.window.start then Some(Range(q.window.start, finalized)) else None
  }

  function RawPart(q: Query): Option<Range> {
    var start, end := q.window.start, q.window.end;
    var rawStart :=
      match q.Watermark()
      case None => start
      case Some(mark) =>
        var finalized := Min(end, Max(start, mark));
        var first := Max(start, finalized);
        if first < q.Cutoff() then Min(end, q.Cutoff()) else first;
    if rawStart < end then Some(Range(rawStart, end)) else None
  }

  function ReasonFor(status: Status, stream: bool): Reason {
    if status == Unset then (if stream then MissingWatermarkStreaming else MissingWatermark)
    else if status != Valid then (if stream then InvalidWatermarkStreaming else InvalidWatermark)
    else if stream then ByWatermarkStreaming else ByWatermark
  }

  /** Whether the rollup rows no longer fit beside the raw rows in memory. */
  predicate Crowded(q: Query, rawCount: nat) {
    && RawPart(q).Some? && RollupPart(q).Some?
    && var fetched := Fetched(RollupPart(q).value);
    && fetched.start < fetched.end
    && var remaining := Max(0, q.limits.maxMaterializedRows - rawCount);
    && Bounded(q.rollupRows(fetched), remaining) > remaining
  }

  predicate In(r: Option<Range>, t: int) {
    r.Some? && r.value.Has(t)
  }

  /** The seconds that some table still answers for: below a valid watermark, or inside raw
      retention, or all of them when no watermark can be trusted. */
  predicate Answerable(q: Query, t: int) {
    q.window.Has(t) && (q.Watermark().None? || t < q.Watermark().value || t >= q.Cutoff())
  }

  /** The ranges of a plan never overlap and cover exactly the answerable seconds. */
  ghost predicate Partitions(q: Query, raw: Option<Range>, rollup: Option<Range>) {
    && (forall t :: !(In(raw, t) && In(rollup, t)))
    && (forall t :: In(raw, t) || In(rollup, t) <==> Answerable(q, t))
    && (forall t :: In(rollup, t) ==> q.Watermark().Some? && t < q.Watermark().value)
    && (forall t :: In(raw, t) ==> t >= q.Cutoff() || q.Watermark().None?)
  }

  /** Raw retention covers the whole window and it fits the row budget. */
  predicate AllRaw(q: Query) {
    q.window.start >= q.Cutoff() && q.rawRows(q.window) <= q.limits.maxQueryRows
  }

  /** `None` stands for the refusal of a query whose raw part is beyond the scan budget. */
  function CostAwarePlan(q: Query): (r: Option<Plan>)
    ensures r.Some? ==> Partitions(q, r.value.raw, r.value.rollup)
    ensures r.None? <==>
              && !AllRaw(q) && RawPart(q).Some?
              && q.rawRows(RawPart(q).value) > q.limits.maxQueryRows
              && q.rawRows(RawPart(q).value) > q.limits.maxStreamScanRows
  {
    var full := Bounded(q.rawRows(q.window), q.limits.maxQueryRows);
    if q.window.start >= q.Cutoff() && full <= q.limits.maxQueryRows then
      Some(Plan(Raw, Some(q.window), None, full, WithinBudget, false))
    else
      var raw, rollup := RawPart(q), RollupPart(q);
      var count := if raw.Some? then Bounded(q.rawRows(raw.value), q.limits.maxQueryRows) else 0;
      var over := raw.Some? && count > q.limits.maxQueryRows;
      var scan := if over then Bounded(q.rawRows(raw.value), q.limits.maxStreamScanRows) else count;
      if over && scan > q.limits.maxStreamScanRows then None
      else
        var stream := over || Crowded(q, scan);
        var mode := if rollup.Some? && raw.Some? then Hybrid else if rollup.Some? then Rollup else Raw;
        Some(Plan(mode, raw, rollup, scan, ReasonFor(WatermarkStatus(q.stored, q.now).1, stream), stream))
  }

  // ----- Properties ---------------------------------------------------------------------

  /** The watermark is trusted exactly when it is a whole, completed minute. */
  lemma WatermarkIsCompletedMinute(stored: Stored, now: int)
    ensures var (mark, status) := WatermarkStatus(stored, now);
            && (mark.Some? <==> status == Valid)
            && (mark.Some? ==> stored == Stored(mark.value))
            && (mark.Some? <==> stored.Stored? && stored.value >= 0 && stored.value % 60 == 0
                                && stored.value + now % 60 <= now)
            && (status == Unset <==> stored.Absent?)
            && (status == InvalidNonNumeric <==> stored.NonNumeric?)
            && (status == InvalidNegative <==> stored.Stored? && stored.value < 0)
            && (status == InvalidMisaligned <==> stored.Stored? && stored.value >= 0 && stored.value % 60 != 0)
  {
    assert now == now / MINUTE * MINUTE + now % MINUTE;
  }

  /** What a plan says about itself: the number of raw rows it reads is the number there are, and its
      reason tells whether raw points alone were within budget, else what the watermark was worth and
      whether the raw part is streamed. */
  lemma PlanTells(q: Query)
    requires CostAwarePlan(q).Some?
    ensures var plan := CostAwarePlan(q).value;
            && plan.rows == (if plan.raw.Some? then q.rawRows(plan.raw.value) else 0)
            && (plan.reason == WithinBudget <==>
                  q.window.start >= q.now - q.rawSeconds && q.rawRows(q.window) <= q.limits.maxQueryRows)
            && (plan.reason == WithinBudget ==>
                  plan.mode == Raw && plan.raw == Some(q.window) && plan.rollup.None? && !plan.stream)
            && (plan.reason != WithinBudget ==>
                  && (plan.reason in {MissingWatermark, MissingWatermarkStreaming} <==> q.stored.Absent?)
                  && (plan.reason in {ByWatermark, ByWatermarkStreaming} <==>
                        && q.stored.Stored? && q.stored.value >= 0 && q.stored.value % 60 == 0
                        && q.stored.value + q.now % 60 <= q.now)
                  && (plan.stream <==>
                        plan.reason in {MissingWatermarkStreaming, InvalidWatermarkStreaming, ByWatermarkStreaming}))
  {
    hide Partitions, Crowded, FloorMinute;
    WatermarkIsCompletedMinute(q.stored, q.now);
    hide WatermarkStatus;
  }

  /** The declared mode names the ranges that are there. */
  lemma ModeNamesRanges(q: Query)
    requires q.window.start < q.window.end && CostAwarePlan(q).Some?
    ensures var plan := CostAwarePlan(q).value;
            && (plan.mode == Hybrid <==> plan.raw.Some? && plan.rollup.Some?)
            && (plan.mode == Rollup <==> plan.raw.None? && plan.rollup.Some?)
            && (plan.raw.Some? ==> q.window.start <= plan.raw.value.start < plan.raw.value.end == q.window.end)
            && (plan.rollup.Some? ==> plan.rollup.value.start == q.window.start < plan.rollup.value.end <= q.window.end)
            && (plan.raw.Some? && plan.rollup.Some? ==> plan.rollup.value.end <= plan.raw.value.start)
            && (plan.raw.None? && plan.rollup.None? <==>
                  q.Watermark().Some? && q.Watermark().value <= q.window.start && q.window.end <= q.Cutoff())
  {
  }

  lemma MinuteBounds(t: int)
    ensures FloorMinute(t) <= t < FloorMinute(t) + MINUTE && FloorMinute(t) % MINUTE == 0
  {
  }

  /** Whole minutes compare with a time as with the minute it is in. */
  lemma WholeMinute(m: int, t: int)
    requires m % MINUTE == 0
    ensures m <= FloorMinute(t) <==> m <= t
    ensures m < FloorMinute(t) <==> m + MINUTE <= FloorMinute(t)
    ensures FloorMinute(m) == m && CeilMinute(m) == m && (-m) % MINUTE == 0 && (m + MINUTE) % MINUTE == 0
  {
    MinuteBounds(t);
    var k, n := m / MINUTE, t / MINUTE;
    assert m == k * MINUTE && FloorMinute(t) == n * MINUTE;
  }

  /** A rollup minute is fetched exactly when the whole of it lies in the range. */
  lemma FetchedMinutesAreWhole(r: Range, minute: int)
    requires minute % MINUTE == 0
    ensures Fetched(r).Has(minute) <==> r.start <= minute && minute + MINUTE <= r.end
  {
    hide FloorMinute;
    WholeMinute(minute, r.end);
    WholeMinute(minute + MINUTE, r.end);
    WholeMinute(-minute, -r.start);
  }

  /** A plan streams its raw part exactly when the rows it would otherwise hold in memory do not
      fit the limits. */
  lemma StreamsWhenNeeded(q: Query)
    requires q.limits.maxQueryRows <= q.limits.maxMaterializedRows && CostAwarePlan(q).Some?
    ensures var plan := CostAwarePlan(q).value;
            plan.stream <==>
              && plan.raw.Some?
              && (|| q.rawRows(plan.raw.value) > q.limits.maxQueryRows
                  || (&& plan.rollup.Some? && Fetched(plan.rollup.value).start < Fetched(plan.rollup.value).end
                      && q.limits.maxMaterializedRows <
                         q.rawRows(plan.raw.value) + q.rollupRows(Fetched(plan.rollup.value))))
  {
  }
}
