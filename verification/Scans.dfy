/** Summarising many series in one ordered scan, without holding the points of any of them. */
module Scans {
  import opened Common
  import opened Series
  import opened Summaries

  function Of(key: Key): Point -> bool {
    (p: Point) => p.key == key
  }

  /** The rows of one series, in the order they arrive. */
  function Group(rows: seq<Point>, key: Key): seq<Point> {
    Filter(rows, Of(key))
  }

  /** Rows that come ordered by series never return to a series they have left. */
  predicate Grouped(rows: seq<Point>) {
    forall i, j, k :: 0 <= i < j < k < |rows| && rows[i].key == rows[k].key ==> rows[j].key == rows[k].key
  }

  predicate OneUnitEach(rows: seq<Point>) {
    forall p, q :: p in rows && q in rows && p.key == q.key ==> p.unit == q.unit
  }

  lemma GroupMembers(rows: seq<Point>, key: Key)
    ensures forall p :: p in Group(rows, key) <==> p in rows && p.key == key
    ensures OneUnitEach(rows) ==> OneUnit(Group(rows, key))
  {
    FilterMembers(rows, Of(key));
  }

  function KeysOf(rows: seq<Point>): set<Key> {
    set p <- rows :: p.key
  }

  lemma GroupSome(rows: seq<Point>, key: Key)
    ensures Group(rows, key) != [] <==> key in KeysOf(rows)
  {
    GroupMembers(rows, key);
    if Group(rows, key) != [] {
      assert Group(rows, key)[0] in Group(rows, key);
    }
  }

  lemma GroupOne(rows: seq<Point>, p: Point, key: Key)
    ensures Group(rows + [p], key) == Group(rows, key) + if p.key == key then [p] else []
  {
    FilterOne(rows, p, Of(key));
  }

  /** The summaries stored for every series that the scan has left behind. */
  ghost predicate Summarised(windowOf: Key -> Window, rows: seq<Point>, open: Option<Key>, found: map<Key, Summary>) {
    && (forall p <- rows :: Some(p.key) == open || p.key in found)
    && (forall key <- found :: Some(key) != open && SummarisedAt(windowOf, rows, key, found[key]))
  }

  ghost predicate SummarisedAt(windowOf: Key -> Window, rows: seq<Point>, key: Key, s: Summary) {
    windowOf(key).cadence > 0.0 && Group(rows, key) != [] && s == Finished(windowOf(key), Group(rows, key))
  }

  lemma SummarisedIsSome(windowOf: Key -> Window, rows: seq<Point>, key: Key, s: Summary)
    requires SummarisedAt(windowOf, rows, key, s)
    ensures key in KeysOf(rows)
  {
    GroupSome(rows, key);
  }

  lemma LeavingIsForGood(rows: seq<Point>, n: nat)
    requires Grouped(rows) && 0 < n < |rows| && rows[n].key != rows[n - 1].key
    ensures forall p <- rows[..n] :: p.key != rows[n].key
  {
    forall i | 0 <= i < n
      ensures rows[i].key != rows[n].key
    {
      if i < n - 1 {
        assert rows[n - 1].key != rows[n].key;
      }
    }
  }

  lemma SummarisedStep(windowOf: Key -> Window, rows: seq<Point>, n: nat, key: Key, found: map<Key, Summary>)
    requires n < |rows| && key == rows[n].key && Summarised(windowOf, rows[..n], Some(key), found)
    ensures Summarised(windowOf, rows[..n + 1], Some(key), found)
  {
    hide Finished, Group;
    assert rows[..n + 1] == rows[..n] + [rows[n]];
    forall other | other in found
      ensures SummarisedAt(windowOf, rows[..n + 1], other, found[other])
    {
      assert SummarisedAt(windowOf, rows[..n], other, found[other]);
      GroupOne(rows[..n], rows[n], other);
      assert Group(rows[..n + 1], other) == Group(rows[..n], other);
    }
    hide SummarisedAt;
  }

  lemma SummarisedClose(windowOf: Key -> Window, rows: seq<Point>, key: Key, found: map<Key, Summary>, s: Summary)
    requires Summarised(windowOf, rows, Some(key), found) && SummarisedAt(windowOf, rows, key, s)
    ensures Summarised(windowOf, rows, None, found[key := s])
  {
    hide SummarisedAt;
  }

  /** Opening a series that has not been seen yet. */
  lemma SummarisedOpen(windowOf: Key -> Window, rows: seq<Point>, key: Key, found: map<Key, Summary>)
    requires Summarised(windowOf, rows, None, found) && forall p <- rows :: p.key != key
    ensures Summarised(windowOf, rows, Some(key), found) && Group(rows, key) == []
  {
    hide SummarisedAt;
    GroupSome(rows, key);
    forall other | other in found
      ensures other != key
    {
      SummarisedIsSome(windowOf, rows, other, found[other]);
    }
  }

  lemma {:induction false} FewerMembers<T>(a: set<T>, b: set<T>)
    requires a <= b
    ensures |a| <= |b|
  {
    if x :| x in a {
      FewerMembers(a - {x}, b - {x});
    }
  }

  lemma FoundFew(windowOf: Key -> Window, rows: seq<Point>, open: Option<Key>, found: map<Key, Summary>)
    requires Summarised(windowOf, rows, open, found)
    ensures open.Some? && Group(rows, open.value) != [] ==> |found| + 1 <= |KeysOf(rows)|
    ensures open.None? ==> found.Keys == KeysOf(rows)
  {
    hide SummarisedAt, Group;
    forall key | key in found
      ensures key in KeysOf(rows)
    {
      SummarisedIsSome(windowOf, rows, key, found[key]);
    }
    if open.Some? && Group(rows, open.value) != [] {
      GroupSome(rows, open.value);
      FewerMembers(found.Keys + {open.value}, KeysOf(rows));
    }
  }

  /** Finishes the open series and stores its summary, unless there are too many already. */
  method Close(accumulator: StreamingSummary, windowOf: Key -> Window, ghost rows: seq<Point>, key: Key,
               found: map<Key, Summary>, maxSeries: nat) returns (r: Option<map<Key, Summary>>)
    requires accumulator.Valid() && accumulator.w == windowOf(key)
    requires accumulator.fed == Group(rows, key) != []
    requires Summarised(windowOf, rows, Some(key), found) && |found| <= maxSeries
    modifies accumulator
    ensures r.None? <==> |found| == maxSeries
    ensures r.None? ==> |KeysOf(rows)| > maxSeries
    ensures r.Some? ==> Summarised(windowOf, rows, None, r.value) && |r.value| <= maxSeries
  {
    hide Finished, Group, Summarised;
    if |found| >= maxSeries {
      FoundFew(windowOf, rows, Some(key), found);
      return None;
    }
    var s := accumulator.Finish();
    SummarisedClose(windowOf, rows, key, found, s);
    return Some(found[key := s]);
  }

  /** A series' summary, against the batch summary of its rows: the counts agree whatever the units
      are, and with one unit and rows in time order all figures do that both have. */
  ghost predicate MatchesBatch(w: Window, group: seq<Point>, s: Summary)
    requires w.cadence > 0.0
  {
    && group != [] && s == Finished(w, group) && AgreesOnCounts(w, group, s)
    && (OneUnit(group) && Sorted(group) ==> SortByTime(group) == group && Agrees(w, group, s))
  }

  /** Summarises every series of the scan; `None` when there are more of them than the limit. */
  method StreamSummaries(windowOf: Key -> Window, rows: seq<Point>, maxSeries: nat)
    returns (r: Option<map<Key, Summary>>)
    requires Grouped(rows) && forall key :: windowOf(key).cadence > 0.0
    ensures r.Some? <==> |KeysOf(rows)| <= maxSeries
    ensures r.Some? ==> r.value.Keys == KeysOf(rows)
    ensures r.Some? ==> forall key <- r.value :: MatchesBatch(windowOf(key), Group(rows, key), r.value[key])
  {
    hide Finished, Group, Summarised, SummarisedAt, Grouped, MatchesBatch;
    var found: map<Key, Summary> := map[];
    var accumulator: StreamingSummary? := null;
    var current: Option<Key> := None;
    SummarisedNothing(windowOf);
    for n := 0 to |rows|
      invariant current == if n == 0 then None else Some(rows[n - 1].key)
      invariant accumulator == null <==> n == 0
      invariant accumulator != null ==> fresh(accumulator) && Scanning(accumulator, windowOf, rows[..n], current)
      invariant Summarised(windowOf, rows[..n], current, found) && |found| <= maxSeries
    {
      var p := rows[n];
      PrefixFacts(rows, n);
      if current.Some? && p.key != current.value {
        LeavingIsForGood(rows, n);
        var closed := Close(accumulator, windowOf, rows[..n], current.value, found, maxSeries);
        if closed.None? {
          return None;
        }
        found := closed.value;
        accumulator := null;
      }
      if accumulator == null {
        SummarisedOpen(windowOf, rows[..n], p.key, found);
        accumulator := new StreamingSummary(windowOf(p.key));
      }
      current := Some(p.key);
      GroupOne(rows[..n], p, p.key);
      SummarisedStep(windowOf, rows, n, p.key, found);
      accumulator.Add(p);
    }
    assert rows[..|rows|] == rows;
    if accumulator != null {
      var closed := Close(accumulator, windowOf, rows, current.value, found, maxSeries);
      if closed.None? {
        return None;
      }
      found := closed.value;
    }
    Conclude(windowOf, rows, found);
    return Some(found);
  }

  ghost predicate Scanning(accumulator: StreamingSummary, windowOf: Key -> Window, rows: seq<Point>,
                           current: Option<Key>)
    reads accumulator
  {
    && accumulator.Valid() && current.Some? && accumulator.w == windowOf(current.value)
    && accumulator.fed == Group(rows, current.value) && accumulator.fed != []
  }

  lemma SummarisedNothing(windowOf: Key -> Window)
    ensures Summarised(windowOf, [], None, map[])
  {
  }

  lemma PrefixFacts(rows: seq<Point>, n: nat)
    requires n < |rows|
    ensures rows[..n + 1] == rows[..n] + [rows[n]]
    ensures |KeysOf(rows[..n])| <= |KeysOf(rows)|
  {
    FewerMembers(KeysOf(rows[..n]), KeysOf(rows));
  }

  lemma Conclude(windowOf: Key -> Window, rows: seq<Point>, found: map<Key, Summary>)
    requires Summarised(windowOf, rows, None, found) && forall key :: windowOf(key).cadence > 0.0
    ensures found.Keys == KeysOf(rows) && |found| == |KeysOf(rows)|
    ensures forall key <- found :: MatchesBatch(windowOf(key), Group(rows, key), found[key])
  {
    hide Finished, Group, Agrees, AgreesOnCounts, Sorted;
    FoundFew(windowOf, rows, None, found);
    assert |found| == |found.Keys|;
    forall key | key in found
      ensures MatchesBatch(windowOf(key), Group(rows, key), found[key])
    {
      assert SummarisedAt(windowOf, rows, key, found[key]);
      FinishedCounts(windowOf(key), Group(rows, key));
      if OneUnit(Group(rows, key)) && Sorted(Group(rows, key)) {
        FinishedAgrees(windowOf(key), Group(rows, key));
        SortKeepsSorted(Group(rows, key));
      }
    }
  }
}
