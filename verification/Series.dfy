/** Metric points and the statistics the query layer reports about them. */
module Series {
  import opened Common

  datatype Quality = Exact | Derived | Estimated | Unavailable
  datatype Value = Number(number: real) | Text(text: string)

  /** The statistics policy of a metric family. */
  datatype Kind = Gauge | Rate | CumulativeCounter | Categorical | Identity | Timestamp | UnknownKind

  datatype Key = Key(entityType: string, entityId: string, metricName: string)

  datatype Point = Point(key: Key, ts: int, numeric: Option<real>, text: Option<string>, unit: string,
                         quality: Quality, reset: int, gap: int)

  predicate SupportsRange(k: Kind) {
    k.Gauge? || k.Rate?
  }

  predicate SupportsTransitions(k: Kind) {
    k.Categorical? || k.Identity? || k.Timestamp?
  }

  function Rank(q: Quality): nat {
    match q
    case Exact => 0
    case Derived => 1
    case Estimated => 2
    case Unavailable => 3
  }

  function Worse(a: Quality, b: Quality): Quality {
    if Rank(b) > Rank(a) then b else a
  }

  function ValueOf(p: Point): Option<Value> {
    if p.numeric.Some? then Some(Number(p.numeric.value))
    else if p.text.Some? then Some(Text(p.text.value)) else None
  }

  predicate Missing(p: Point) {
    p.quality == Unavailable || ValueOf(p).None?
  }

  /** The value a point contributes to a minimum or maximum. */
  function Ranged(p: Point): Option<real> {
    if p.quality != Unavailable then p.numeric else None
  }

  function Lower(a: Option<real>, b: Option<real>): Option<real> {
    if a.None? then b else if b.None? then a else if b.value < a.value then b else a
  }

  function Upper(a: Option<real>, b: Option<real>): Option<real> {
    if a.None? then b else if b.None? then a else if b.value > a.value then b else a
  }

  function Filter<T>(s: seq<T>, f: T -> bool): seq<T> {
    if s == [] then []
    else Filter(s[..|s| - 1], f) + if f(s[|s| - 1]) then [s[|s| - 1]] else []
  }

  lemma FilterOne<T>(s: seq<T>, x: T, f: T -> bool)
    ensures Filter(s + [x], f) == Filter(s, f) + if f(x) then [x] else []
  {
    assert (s + [x])[..|s|] == s;
  }

  lemma {:induction false} FilterAppend<T>(a: seq<T>, b: seq<T>, f: T -> bool)
    ensures Filter(a + b, f) == Filter(a, f) + Filter(b, f)
  {
    if b == [] {
      assert a + b == a;
    } else {
      assert a + b == (a + b[..|b| - 1]) + [b[|b| - 1]];
      FilterOne(a + b[..|b| - 1], b[|b| - 1], f);
      FilterAppend(a, b[..|b| - 1], f);
    }
  }

  lemma {:induction false} FilterMembers<T>(s: seq<T>, f: T -> bool)
    ensures forall x :: x in Filter(s, f) <==> x in s && f(x)
  {
    if s != [] {
      FilterMembers(s[..|s| - 1], f);
      assert s == s[..|s| - 1] + [s[|s| - 1]];
    }
  }

  lemma {:induction false} FilterNone<T>(s: seq<T>, f: T -> bool)
    requires forall x <- s :: !f(x)
    ensures Filter(s, f) == []
  {
    if s != [] {
      assert s[|s| - 1] in s;
      FilterNone(s[..|s| - 1], f);
    }
  }

  lemma {:induction false} FilterAll<T>(s: seq<T>, f: T -> bool)
    requires forall x <- s :: f(x)
    ensures Filter(s, f) == s
  {
    if s != [] {
      assert s[|s| - 1] in s;
      FilterAll(s[..|s| - 1], f);
    }
  }

  /** Filtering twice is filtering once by both. */
  lemma {:induction false} FilterFilter<T>(s: seq<T>, f: T -> bool, g: T -> bool, h: T -> bool)
    requires forall x <- s :: h(x) <==> f(x) && g(x)
    ensures Filter(Filter(s, f), g) == Filter(s, h)
  {
    if s != [] {
      var front, last := s[..|s| - 1], s[|s| - 1];
      assert last in s;
      FilterFilter(front, f, g, h);
      if f(last) {
        FilterOne(Filter(front, f), last, g);
      } else {
        assert Filter(s, f) == Filter(front, f);
      }
    }
  }

  lemma {:induction false} FilterAgree<T>(s: seq<T>, f: T -> bool, g: T -> bool)
    requires forall x <- s :: f(x) <==> g(x)
    ensures Filter(s, f) == Filter(s, g)
  {
    if s != [] {
      assert s[|s| - 1] in s;
      FilterAgree(s[..|s| - 1], f, g);
    }
  }

  predicate Sorted(s: seq<Point>) {
    forall i, j :: 0 <= i < j < |s| ==> s[i].ts <= s[j].ts
  }

  /** Stable insertion, as a stable sort by timestamp would place the next element. */
  function Insert(s: seq<Point>, p: Point): seq<Point> {
    if s == [] || s[|s| - 1].ts <= p.ts then s + [p]
    else Insert(s[..|s| - 1], p) + [s[|s| - 1]]
  }

  function SortByTime(s: seq<Point>): seq<Point> {
    if s == [] then [] else Insert(SortByTime(s[..|s| - 1]), s[|s| - 1])
  }

  lemma {:induction false} InsertSorts(s: seq<Point>, p: Point)
    requires Sorted(s)
    ensures Sorted(Insert(s, p)) && multiset(Insert(s, p)) == multiset(s) + multiset{p}
  {
    InsertPermutes(s, p);
    if s != [] && s[|s| - 1].ts > p.ts {
      var front, last := s[..|s| - 1], s[|s| - 1];
      InsertSorts(front, p);
      forall q | q in Insert(front, p)
        ensures q.ts <= last.ts
      {
        assert q in multiset(Insert(front, p));
        assert q == p || q in front;
      }
    }
  }

  lemma {:induction false} InsertPermutes(s: seq<Point>, p: Point)
    ensures multiset(Insert(s, p)) == multiset(s) + multiset{p}
  {
    if s != [] && s[|s| - 1].ts > p.ts {
      InsertPermutes(s[..|s| - 1], p);
      assert s == s[..|s| - 1] + [s[|s| - 1]];
    }
  }

  lemma {:induction false} SortSorts(s: seq<Point>)
    ensures Sorted(SortByTime(s)) && multiset(SortByTime(s)) == multiset(s)
  {
    if s != [] {
      SortSorts(s[..|s| - 1]);
      InsertSorts(SortByTime(s[..|s| - 1]), s[|s| - 1]);
      assert s == s[..|s| - 1] + [s[|s| - 1]];
    }
  }

  lemma InsertLast(s: seq<Point>, p: Point)
    requires Sorted(s + [p])
    ensures Insert(s, p) == s + [p] && Sorted(s)
  {
    if s != [] {
      assert (s + [p])[|s| - 1].ts <= (s + [p])[|s|].ts;
    }
    forall i, j | 0 <= i < j < |s|
      ensures s[i].ts <= s[j].ts
    {
      assert (s + [p])[i].ts <= (s + [p])[j].ts;
    }
  }

  /** Rows that already arrive in time order are left as they are. */
  lemma {:induction false} SortKeepsSorted(s: seq<Point>)
    requires Sorted(s)
    ensures SortByTime(s) == s
  {
    if s != [] {
      hide Insert, Sorted;
      var front, last := s[..|s| - 1], s[|s| - 1];
      assert s == front + [last];
      InsertLast(front, last);
      SortKeepsSorted(front);
    }
  }

  // ----- Statistics of the points inside a window ---------------------------------------

  /** The per-point statistics of a summary, folded over the points inside the window. */
  datatype Stats = Stats(samples: nat, quality: Quality, unavailable: nat, resets: int, gaps: int,
                         first: Option<int>, last: Option<int>, latest: Option<Value>,
                         minimum: Option<real>, maximum: Option<real>)

  const NO_STATS := Stats(0, Unavailable, 0, 0, 0, None, None, None, None, None)

  function CountMissing(ps: seq<Point>): nat {
    if ps == [] then 0 else CountMissing(ps[..|ps| - 1]) + if Missing(ps[|ps| - 1]) then 1 else 0
  }

  function SumResets(ps: seq<Point>): int {
    if ps == [] then 0 else SumResets(ps[..|ps| - 1]) + ps[|ps| - 1].reset
  }

  function SumGaps(ps: seq<Point>): int {
    if ps == [] then 0 else SumGaps(ps[..|ps| - 1]) + ps[|ps| - 1].gap
  }

  function WorstQuality(ps: seq<Point>): Quality {
    if ps == [] then Unavailable
    else if |ps| == 1 then ps[0].quality
    else Worse(WorstQuality(ps[..|ps| - 1]), ps[|ps| - 1].quality)
  }

  function Minimum(ps: seq<Point>): Option<real> {
    if ps == [] then None else Lower(Minimum(ps[..|ps| - 1]), Ranged(ps[|ps| - 1]))
  }

  function Maximum(ps: seq<Point>): Option<real> {
    if ps == [] then None else Upper(Maximum(ps[..|ps| - 1]), Ranged(ps[|ps| - 1]))
  }

  /** What the batch summary reports about the points inside the window, each figure on its own. */
  function StatsOf(inside: seq<Point>, kind: Kind): Stats {
    if inside == [] then NO_STATS
    else Stats(|inside|, WorstQuality(inside), CountMissing(inside), SumResets(inside), SumGaps(inside),
               Some(inside[0].ts), Some(inside[|inside| - 1].ts), ValueOf(inside[|inside| - 1]),
               if SupportsRange(kind) then Minimum(inside) else None,
               if SupportsRange(kind) then Maximum(inside) else None)
  }

  /** The minimum is attained and is a lower bound; likewise the maximum. */
  lemma {:induction false} ExtremesAreExtreme(ps: seq<Point>)
    ensures Minimum(ps).Some? <==> exists p <- ps :: Ranged(p).Some?
    ensures Minimum(ps).Some? <==> Maximum(ps).Some?
    ensures Minimum(ps).Some? ==>
              (exists p <- ps :: Ranged(p) == Minimum(ps)) && (exists p <- ps :: Ranged(p) == Maximum(ps))
    ensures forall p <- ps :: Ranged(p).Some? ==>
              Minimum(ps).Some? && Minimum(ps).value <= Ranged(p).value <= Maximum(ps).value
  {
    if ps != [] {
      ExtremesAreExtreme(ps[..|ps| - 1]);
      assert ps == ps[..|ps| - 1] + [ps[|ps| - 1]];
      assert ps[|ps| - 1] in ps;
    }
  }

  lemma {:induction false} WorstIsWorst(ps: seq<Point>)
    requires ps != []
    ensures (forall p <- ps :: Rank(p.quality) <= Rank(WorstQuality(ps)))
              && (exists p <- ps :: p.quality == WorstQuality(ps))
  {
    assert ps[|ps| - 1] in ps;
    if |ps| > 1 {
      WorstIsWorst(ps[..|ps| - 1]);
      assert ps == ps[..|ps| - 1] + [ps[|ps| - 1]];
    }
  }

  function Values(ps: seq<Point>): seq<Value> {
    if ps == [] then []
    else Values(ps[..|ps| - 1]) + if ValueOf(ps[|ps| - 1]).Some? then [ValueOf(ps[|ps| - 1]).value] else []
  }

  function Changes(vs: seq<Value>): nat {
    if |vs| < 2 then 0
    else Changes(vs[..|vs| - 1]) + if vs[|vs| - 2] != vs[|vs| - 1] then 1 else 0
  }
}
