/** The summary of a series' minute rollups. */
module RollupSummaries {
  import opened Common
  import opened Series
  import opened Summaries
  import opened Planner
  import opened Rollups

  /** The figures that rollup rows and raw points can both tell. */
  datatype Totals = Totals(samples: nat, unavailable: nat, resets: int, gaps: int,
                           minimum: Option<real>, maximum: Option<real>)

  const NOTHING := Totals(0, 0, 0, 0, None, None)

  function Plus(a: Totals, b: Totals): Totals {
    Totals(a.samples + b.samples, a.unavailable + b.unavailable, a.resets + b.resets, a.gaps + b.gaps,
           Lower(a.minimum, b.minimum), Upper(a.maximum, b.maximum))
  }

  lemma PlusLaws(a: Totals, b: Totals, c: Totals)
    ensures Plus(a, b) == Plus(b, a) && Plus(Plus(a, b), c) == Plus(a, Plus(b, c)) && Plus(NOTHING, a) == a
  {
  }

  /** Metrics without a range report no minimum and no maximum. */
  function Limited(t: Totals, kind: Kind): Totals {
    if SupportsRange(kind) then t else t.(minimum := None, maximum := None)
  }

  datatype RollupPoint = RollupPoint(minute: int, row: Rollup)

  function RowTotals(row: Rollup): Totals {
    Totals(row.samples, row.unavailable, row.resets, row.gaps, row.minimum, row.maximum)
  }

  function SumRows(rows: seq<RollupPoint>): Totals {
    if rows == [] then NOTHING else Plus(SumRows(rows[..|rows| - 1]), RowTotals(rows[|rows| - 1].row))
  }

  lemma SumRowsOne(rows: seq<RollupPoint>, p: RollupPoint)
    ensures SumRows(rows + [p]) == Plus(SumRows(rows), RowTotals(p.row))
  {
    assert (rows + [p])[..|rows|] == rows;
  }

  lemma SumOfNone()
    ensures SumRows([]) == NOTHING
  {
  }

  // ----- What the summary says ----------------------------------------------------------

  datatype Condensed = Condensed(totals: Totals, unit: string, quality: Quality, expected: int, coverage: real,
                                 first: int, last: int, numeric: bool, weightedSeconds: real, average: Option<real>)

  function SumExpected(rows: seq<RollupPoint>): int {
    if rows == [] then 0 else SumExpected(rows[..|rows| - 1]) + rows[|rows| - 1].row.expected
  }

  /** The samples one would expect: those of the rows, and of the time without a row. */
  function ExpectedIn(rows: seq<RollupPoint>, r: Range, cadence: Cadence): int {
    var missing := Max(0, r.end - r.start - |rows| * MINUTE);
    Max(1, SumExpected(rows) + if missing > 0 then Max(1, Ceil(missing as real / cadence)) else 0)
  }

  function WorstRow(rows: seq<RollupPoint>): Quality {
    if rows == [] then Unavailable
    else if |rows| == 1 then rows[0].row.quality
    else Worse(WorstRow(rows[..|rows| - 1]), rows[|rows| - 1].row.quality)
  }

  /** The seconds of a row inside the range, in proportion to the values it has. */
  function Covered(p: RollupPoint, r: Range): real {
    var seconds := Max(0, Min(r.end, p.minute + MINUTE) - Max(r.start, p.minute));
    seconds as real * Coverage(Max(0, p.row.samples - p.row.unavailable), Max(1, p.row.expected))
  }

  function Share(p: RollupPoint, r: Range): Weighted {
    if p.row.average.Some? then (p.row.average.value, Covered(p, r)) else (0.0, 0.0)
  }

  function Shares(rows: seq<RollupPoint>, r: Range): seq<Weighted> {
    if rows == [] then [] else Shares(rows[..|rows| - 1], r) + [Share(rows[|rows| - 1], r)]
  }

  predicate TextUnit(unit: string) {
    unit == "state" || unit == "endpoint" || unit == "text"
  }

  function Condense(rows: seq<RollupPoint>, r: Range, cadence: Cadence, kind: Kind): Condensed
    requires rows != []
  {
    var totals, expected, last := SumRows(rows), ExpectedIn(rows, r, cadence), rows[|rows| - 1];
    var seconds := SumWeights(Shares(rows, r));
    Condensed(Limited(totals, kind), last.row.unit,
              if SupportsTransitions(kind) then Unavailable else WorstRow(rows),
              expected, Coverage(totals.samples, expected), rows[0].minute, last.minute + 59,
              SupportsRange(kind) || !TextUnit(last.row.unit),
              if SupportsRange(kind) then seconds else 0.0,
              if SupportsRange(kind) && seconds != 0.0 then Some(SumProducts(Shares(rows, r)) / seconds) else None)
  }

  // ----- The code -----------------------------------------------------------------------

  method SumUp(rows: seq<RollupPoint>) returns (t: Totals, expected: int, quality: Quality)
    ensures t == SumRows(rows) && expected == SumExpected(rows) && quality == WorstRow(rows)
  {
    t, expected, quality := NOTHING, 0, Unavailable;
    for n := 0 to |rows|
      invariant t == SumRows(rows[..n]) && expected == SumExpected(rows[..n]) && quality == WorstRow(rows[..n])
    {
      var row := rows[n].row;
      assert rows[..n + 1][..n] == rows[..n];
      t := t.(samples := t.samples + row.samples, unavailable := t.unavailable + row.unavailable);
      t := t.(resets := t.resets + row.resets, gaps := t.gaps + row.gaps);
      if row.minimum.Some? && (t.minimum.None? || row.minimum.value < t.minimum.value) {
        t := t.(minimum := row.minimum);
      }
      if row.maximum.Some? && (t.maximum.None? || row.maximum.value > t.maximum.value) {
        t := t.(maximum := row.maximum);
      }
      expected := expected + row.expected;
      quality := if n == 0 || Rank(row.quality) > Rank(quality) then row.quality else quality;
    }
    assert rows[..|rows|] == rows;
  }

  method WeighRows(rows: seq<RollupPoint>, r: Range) returns (total: real, seconds: real)
    ensures total == SumProducts(Shares(rows, r)) && seconds == SumWeights(Shares(rows, r))
  {
    hide Shares, SumProducts, SumWeights, Covered, Product, Share;
    total, seconds := 0.0, 0.0;
    SharesOfNone(r);
    for n := 0 to |rows|
      invariant total == SumProducts(Shares(rows[..n], r)) && seconds == SumWeights(Shares(rows[..n], r))
    {
      assert rows[..n + 1] == rows[..n] + [rows[n]];
      SharesOne(rows[..n], rows[n], r);
      ShareOrNothing(rows[n], r);
      var covered := Covered(rows[n], r);
      if rows[n].row.average.Some? && covered > 0.0 {
        total := total + Product((rows[n].row.average.value, covered));
        seconds := seconds + covered;
      }
    }
    assert rows[..|rows|] == rows;
  }

  lemma ShareOrNothing(p: RollupPoint, r: Range)
    ensures if p.row.average.Some? && Covered(p, r) > 0.0 then Share(p, r) == (p.row.average.value, Covered(p, r))
            else Product(Share(p, r)) == 0.0 && Share(p, r).1 == 0.0
  {
    CoveredIsBounded(p, r);
  }

  lemma SharesOfNone(r: Range)
    ensures SumProducts(Shares([], r)) == 0.0 && SumWeights(Shares([], r)) == 0.0
  {
  }

  lemma SharesOne(rows: seq<RollupPoint>, p: RollupPoint, r: Range)
    ensures Shares(rows + [p], r) == Shares(rows, r) + [Share(p, r)]
    ensures SumProducts(Shares(rows + [p], r)) == SumProducts(Shares(rows, r)) + Product(Share(p, r))
    ensures SumWeights(Shares(rows + [p], r)) == SumWeights(Shares(rows, r)) + Share(p, r).1
  {
    assert (rows + [p])[..|rows|] == rows;
    SumsOne(Shares(rows, r), Share(p, r));
  }

  /** Summarises the rollup rows of one series, given in order, for a range. */
  method RollupSummary(rows: seq<RollupPoint>, r: Range, cadence: Cadence, kind: Kind) returns (c: Condensed)
    requires rows != []
    ensures c == Condense(rows, r, cadence, kind)
  {
    hide SumRows, SumExpected, WorstRow, Shares, SumProducts, SumWeights;
    var totals, expected, quality := SumUp(rows);
    var missing := Max(0, r.end - r.start - |rows| * MINUTE);
    if missing > 0 {
      expected := expected + Max(1, Ceil(missing as real / cadence));
    }
    expected := Max(1, expected);
    var last := rows[|rows| - 1];
    var coverage := Coverage(totals.samples, expected);
    if !SupportsRange(kind) {
      return Condensed(totals.(minimum := None, maximum := None), last.row.unit,
                       if SupportsTransitions(kind) then Unavailable else quality, expected, coverage,
                       rows[0].minute, last.minute + 59, !TextUnit(last.row.unit), 0.0, None);
    }
    var total, seconds := WeighRows(rows, r);
    c := Condensed(totals, last.row.unit, quality, expected, coverage, rows[0].minute, last.minute + 59, true, seconds,
                   if seconds != 0.0 then Some(total / seconds) else None);
  }

  // ----- Properties ---------------------------------------------------------------------

  lemma CoverageIsShare(samples: nat, expected: int)
    requires expected >= 1
    ensures 0.0 <= Coverage(samples, expected) <= 1.0
  {
    assert samples as real / expected as real >= 0.0;
  }

  lemma CoveredIsBounded(p: RollupPoint, r: Range)
    ensures 0.0 <= Covered(p, r) <= 60.0
  {
    var seconds := Max(0, Min(r.end, p.minute + MINUTE) - Max(r.start, p.minute));
    var share := Coverage(Max(0, p.row.samples - p.row.unavailable), Max(1, p.row.expected));
    CoverageIsShare(Max(0, p.row.samples - p.row.unavailable), Max(1, p.row.expected));
    hide Coverage;
    Scaled(seconds as real, share, 60.0);
  }

  lemma Scaled(a: real, share: real, bound: real)
    requires 0.0 <= a <= bound && 0.0 <= share <= 1.0
    ensures 0.0 <= a * share <= bound
  {
    assert a * share >= 0.0;
    assert a * (1.0 - share) >= 0.0;
  }

  /** A row whose average lies between its extremes, as every fold's does. */
  predicate Centred(row: Rollup) {
    row.average.Some? ==> && row.minimum.Some? && row.maximum.Some?
                          && row.minimum.value <= row.average.value <= row.maximum.value
  }

  lemma FoldIsCentred(cadence: Cadence, ps: seq<Point>)
    requires ps != []
    ensures Centred(Fold(cadence, ps))
  {
    hide Fold;
    FoldDescribes(cadence, ps);
  }

  predicate Within(t: Totals, low: real, high: real) {
    t.minimum.Some? && t.maximum.Some? && low <= t.minimum.value && t.maximum.value <= high
  }

  /** Weighted values between two bounds have a weighted sum between the scaled bounds. */
  lemma {:induction false} ProductsBetween(s: seq<Weighted>, low: real, high: real)
    requires forall i :: 0 <= i < |s| ==> s[i].1 >= 0.0 && (s[i].1 > 0.0 ==> low <= s[i].0 <= high)
    ensures SumWeights(s) >= 0.0 && low * SumWeights(s) <= SumProducts(s) <= high * SumWeights(s)
  {
    if s != [] {
      ProductsBetween(s[..|s| - 1], low, high);
      OneProduct(s[|s| - 1], low, high, SumWeights(s[..|s| - 1]));
    }
  }

  lemma OneProduct(x: Weighted, low: real, high: real, sum: real)
    requires x.1 >= 0.0 && (x.1 > 0.0 ==> low <= x.0 <= high)
    ensures low * x.1 <= Product(x) <= high * x.1
    ensures low * (sum + x.1) == low * sum + low * x.1 && high * (sum + x.1) == high * sum + high * x.1
  {
    if x.1 > 0.0 {
      Grows(low, x.0, x.1);
      Grows(x.0, high, x.1);
    }
  }

  lemma Grows(a: real, b: real, weight: real)
    requires a <= b && weight >= 0.0
    ensures a * weight <= b * weight
  {
    var d := b - a;
    assert d * weight >= 0.0;
    assert b * weight == (a + d) * weight == a * weight + d * weight;
  }

  /** The extremes of the totals bound those of every row. */
  lemma {:induction false} TotalsBound(rows: seq<RollupPoint>, i: nat)
    requires i < |rows| && rows[i].row.minimum.Some? && rows[i].row.maximum.Some?
    ensures var t := SumRows(rows);
            && t.minimum.Some? && t.maximum.Some?
            && t.minimum.value <= rows[i].row.minimum.value && rows[i].row.maximum.value <= t.maximum.value
  {
    if i < |rows| - 1 {
      TotalsBound(rows[..|rows| - 1], i);
    }
  }

  lemma {:induction false} SharesAt(rows: seq<RollupPoint>, r: Range)
    ensures |Shares(rows, r)| == |rows| && forall i :: 0 <= i < |rows| ==> Shares(rows, r)[i] == Share(rows[i], r)
  {
    if rows != [] {
      SharesAt(rows[..|rows| - 1], r);
    }
  }

  lemma Quotient(low: real, sum: real, high: real, weight: real)
    requires weight > 0.0 && low * weight <= sum <= high * weight
    ensures low <= sum / weight <= high
  {
  }

  lemma {:induction false} ShareSeconds(s: seq<Weighted>)
    requires forall i :: 0 <= i < |s| ==> 0.0 <= s[i].1 <= 60.0
    ensures 0.0 <= SumWeights(s) <= 60.0 * |s| as real
  {
    if s != [] {
      ShareSeconds(s[..|s| - 1]);
    }
  }

  /** The summary of folded rows is sensible: something is expected, coverage is a share, the
      weighted seconds fit the rows' minutes, and the average, which exists exactly when some
      row has values inside the range, lies between the minimum and the maximum. */
  lemma CondensedIsSensible(rows: seq<RollupPoint>, r: Range, cadence: Cadence, kind: Kind)
    requires rows != [] && forall i :: 0 <= i < |rows| ==> Centred(rows[i].row)
    ensures var c := Condense(rows, r, cadence, kind);
            && c.expected >= 1 && 0.0 <= c.coverage <= 1.0
            && 0.0 <= c.weightedSeconds <= 60.0 * |rows| as real
            && (c.average.Some? <==> SupportsRange(kind) && c.weightedSeconds > 0.0)
            && (c.average.Some? ==> && c.totals.minimum.Some? && c.totals.maximum.Some?
                                    && c.totals.minimum.value <= c.average.value <= c.totals.maximum.value)
  {
    var shares, totals := Shares(rows, r), SumRows(rows);
    CoverageIsShare(totals.samples, ExpectedIn(rows, r, cadence));
    SharesAt(rows, r);
    forall i | 0 <= i < |rows|
      ensures 0.0 <= shares[i].1 <= 60.0
    {
      CoveredIsBounded(rows[i], r);
    }
    ShareSeconds(shares);
    if SumWeights(shares) != 0.0 {
      hide Shares, SumRows, Coverage, ExpectedIn, Covered;
      AverageWithin(rows, r);
    }
  }

  lemma AverageWithin(rows: seq<RollupPoint>, r: Range)
    requires rows != [] && SumWeights(Shares(rows, r)) > 0.0 && forall i :: 0 <= i < |rows| ==> Centred(rows[i].row)
    ensures var t, average := SumRows(rows), SumProducts(Shares(rows, r)) / SumWeights(Shares(rows, r));
            t.minimum.Some? && t.maximum.Some? && t.minimum.value <= average <= t.maximum.value
  {
    hide Shares, SumRows, Covered, SumProducts, SumWeights;
    var shares, t := Shares(rows, r), SumRows(rows);
    SharesAt(rows, r);
    var k := SomeShare(rows, r);
    TotalsBound(rows, k);
    forall i | 0 <= i < |shares|
      ensures shares[i].1 >= 0.0 && (shares[i].1 > 0.0 ==> t.minimum.value <= shares[i].0 <= t.maximum.value)
    {
      CoveredIsBounded(rows[i], r);
      if rows[i].row.average.Some? {
        assert Centred(rows[i].row);
        TotalsBound(rows, i);
      }
    }
    ProductsBetween(shares, t.minimum.value, t.maximum.value);
    Quotient(t.minimum.value, SumProducts(shares), t.maximum.value, SumWeights(shares));
  }

  /** Where there is weight, some row has an average. */
  lemma {:induction false} SomeShare(rows: seq<RollupPoint>, r: Range) returns (k: nat)
    requires SumWeights(Shares(rows, r)) > 0.0 && forall i :: 0 <= i < |rows| ==> Centred(rows[i].row)
    ensures k < |rows| && rows[k].row.minimum.Some? && rows[k].row.maximum.Some?
  {
    SharesAt(rows, r);
    var last := rows[|rows| - 1];
    if last.row.average.Some? {
      assert Centred(last.row);
      k := |rows| - 1;
    } else {
      assert Shares(rows, r)[..|rows| - 1] == Shares(rows[..|rows| - 1], r);
      k := SomeShare(rows[..|rows| - 1], r);
    }
  }
}
