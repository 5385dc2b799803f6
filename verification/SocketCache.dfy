/** Socket counts of a service between full snapshots: a cached count is reported only while
    the service still consists of the processes it was counted for. */
module SocketCache {
  import opened Common
  import opened Decimal

  // ----- The identity of a service's processes ------------------------------------------

  /** A service's start mark and its member processes, each with its own start time. */
  datatype Process = Process(start: string, members: seq<(nat, nat)>)

  function Member(m: (nat, nat)): string {
    Digits(m.0) + [':'] + Digits(m.1)
  }

  function Join(members: seq<(nat, nat)>): string {
    if members == [] then []
    else if |members| == 1 then Member(members[0])
    else Member(members[0]) + [','] + Join(members[1..])
  }

  function Encode(p: Process): string {
    p.start + ['|'] + Join(p.members)
  }

  function FirstIndex(text: string, c: char): nat {
    if text == [] || text[0] == c then 0 else 1 + FirstIndex(text[1..], c)
  }

  lemma {:induction false} FirstIndexIs(a: string, b: string, c: char)
    requires c !in a
    ensures FirstIndex(a + [c] + b, c) == |a|
  {
    if a != [] {
      assert a[0] in a && (a + [c] + b)[1..] == a[1..] + [c] + b;
      FirstIndexIs(a[1..], b, c);
    }
  }

  /** A text splits in only one way at its first separator. */
  lemma SplitFirst(a: string, b: string, x: string, y: string, c: char)
    requires a + [c] + b == x + [c] + y && c !in a && c !in x
    ensures a == x && b == y
  {
    FirstIndexIs(a, b, c);
    FirstIndexIs(x, y, c);
    Halves(a, b, c);
    Halves(x, y, c);
  }

  lemma Halves(a: string, b: string, c: char)
    ensures (a + [c] + b)[..|a|] == a && (a + [c] + b)[|a| + 1..] == b
  {
  }

  /** The length of the part after the last separator. */
  function LastLength(text: string, c: char): nat {
    if text == [] || text[|text| - 1] == c then 0 else 1 + LastLength(text[..|text| - 1], c)
  }

  lemma {:induction false} LastLengthIs(a: string, b: string, c: char)
    requires c !in b
    ensures LastLength(a + [c] + b, c) == |b|
  {
    var text := a + [c] + b;
    if b != [] {
      assert b[|b| - 1] in b && text[..|text| - 1] == a + [c] + b[..|b| - 1];
      LastLengthIs(a, b[..|b| - 1], c);
    }
  }

  /** And in only one way at its last one. */
  lemma SplitLast(a: string, b: string, x: string, y: string, c: char)
    requires a + [c] + b == x + [c] + y && c !in b && c !in y
    ensures a == x && b == y
  {
    LastLengthIs(a, b, c);
    LastLengthIs(x, y, c);
    assert |a + [c] + b| == |x + [c] + y|;
    Halves(a, b, c);
    Halves(x, y, c);
  }

  lemma MemberText(m: (nat, nat))
    ensures Member(m) != [] && ',' !in Member(m) && '|' !in Member(m)
  {
    DigitsAreNumerals(m.0);
    DigitsAreNumerals(m.1);
  }

  lemma MembersAreUnique(a: (nat, nat), b: (nat, nat))
    requires Member(a) == Member(b)
    ensures a == b
  {
    DigitsAreNumerals(a.0);
    DigitsAreNumerals(b.0);
    SplitFirst(Digits(a.0), Digits(a.1), Digits(b.0), Digits(b.1), ':');
    DigitsAreUnique(a.0, b.0);
    DigitsAreUnique(a.1, b.1);
  }

  lemma {:induction false} JoinText(members: seq<(nat, nat)>)
    ensures '|' !in Join(members) && (Join(members) == [] <==> members == [])
    ensures ',' in Join(members) <==> |members| > 1
  {
    if members != [] {
      MemberText(members[0]);
      if |members| > 1 {
        JoinText(members[1..]);
      }
    }
  }

  lemma {:induction false} JoinsAreUnique(a: seq<(nat, nat)>, b: seq<(nat, nat)>)
    requires Join(a) == Join(b)
    ensures a == b
  {
    JoinText(a);
    JoinText(b);
    if |a| == 1 && |b| == 1 {
      MembersAreUnique(a[0], b[0]);
    } else if |a| > 1 && |b| > 1 {
      MemberText(a[0]);
      MemberText(b[0]);
      SplitFirst(Member(a[0]), Join(a[1..]), Member(b[0]), Join(b[1..]), ',');
      MembersAreUnique(a[0], b[0]);
      JoinsAreUnique(a[1..], b[1..]);
      assert a == [a[0]] + a[1..] && b == [b[0]] + b[1..];
    }
  }

  /** Two services with the same identity text have the same processes, whatever the start mark
      contains. */
  lemma IdentityIsInjective(p: Process, q: Process)
    requires Encode(p) == Encode(q)
    ensures p == q
  {
    JoinText(p.members);
    JoinText(q.members);
    SplitLast(p.start, Join(p.members), q.start, Join(q.members), '|');
    JoinsAreUnique(p.members, q.members);
  }

  // ----- Counting -----------------------------------------------------------------------

  datatype State = Estab | SynSent | SynRecv | FinWait1 | FinWait2 | CloseWait | TimeWait

  const STATES := [Estab, SynSent, SynRecv, FinWait1, FinWait2, CloseWait, TimeWait]

  /** A socket; `None` as its state is any state that is not reported, `None` as its process one
      that could not be found out. */
  datatype Record = Record(state: Option<State>, pid: Option<int>)

  datatype Quality = Exact | Estimated | Unavailable
  datatype Reading = Reading(value: Option<nat>, quality: Quality)

  const NO_READING := Reading(None, Unavailable)

  /** What a collector cycle knows about one service. */
  datatype Cycle = Cycle(pids: set<int>, authoritative: bool, process: Option<Process>, due: bool,
                         records: Option<seq<Record>>)

  datatype Entry = Entry(identity: string, established: Option<nat>, states: map<State, Option<nat>>)

  predicate Snapshot(c: Cycle) {
    c.pids != {} && c.authoritative && c.due && c.records.Some?
  }

  predicate Between(c: Cycle) {
    c.pids != {} && c.authoritative && c.process.Some? && (!c.due || c.records.None?)
  }

  function CountOwned(records: seq<Record>, state: State, pids: set<int>): nat {
    if records == [] then 0
    else
      var last := records[|records| - 1];
      CountOwned(records[..|records| - 1], state, pids) +
      if last.state == Some(state) && last.pid.Some? && last.pid.value in pids then 1 else 0
  }

  /** The exact number of a service's sockets in a state, if all of them could be attributed. */
  function ExactCount(records: seq<Record>, state: State, pids: set<int>): Option<nat> {
    if exists r <- records :: r.state == Some(state) && r.pid.None? then None
    else Some(CountOwned(records, state, pids))
  }

  predicate Complete(e: Entry) {
    forall state: State :: state in e.states
  }

  function EntryOf(c: Cycle): (e: Entry)
    requires Snapshot(c) && c.process.Some?
    ensures Complete(e)
  {
    Entry(Encode(c.process.value), ExactCount(c.records.value, Estab, c.pids),
          map state: State {:trigger ExactCount(c.records.value, state, c.pids)} | true ::
            ExactCount(c.records.value, state, c.pids))
  }

  /** What the cache holds after a cycle. */
  function CacheAfter(cache: Option<Entry>, c: Cycle): Option<Entry> {
    if Snapshot(c) && c.process.Some? then Some(EntryOf(c)) else cache
  }

  /** What a cycle reports for a state. */
  function Reported(cache: Option<Entry>, c: Cycle, state: State): Reading
    requires cache.Some? ==> Complete(cache.value)
  {
    if Snapshot(c) then
      var n := ExactCount(c.records.value, state, c.pids);
      if n.Some? then Reading(n, Exact) else NO_READING
    else if Between(c) && cache.Some? && cache.value.identity == Encode(c.process.value)
      && cache.value.states[state].Some? then
      Reading(cache.value.states[state], Estimated)
    else NO_READING
  }

  // ----- The code -----------------------------------------------------------------------

  class Collector {
    var cache: map<string, Entry>

    ghost predicate Valid()
      reads this
    {
      forall service <- cache :: Complete(cache[service]) && cache[service].established == cache[service].states[Estab]
    }

    function Cached(service: string): Option<Entry>
      reads this
    {
      if service in cache then Some(cache[service]) else None
    }

    /** Counts the sockets of each state. */
    method CountStates(records: seq<Record>, pids: set<int>)
      returns (states: map<State, Option<nat>>, qualities: map<State, Quality>)
      ensures forall state: State :: state in states && state in qualities
                && states[state] == ExactCount(records, state, pids)
      ensures forall state: State :: state in qualities ==>
                qualities[state] == if states[state].Some? then Exact else Unavailable
    {
      states, qualities := map[], map[];
      for n := 0 to |STATES|
        invariant forall m :: 0 <= m < n ==> STATES[m] in states && STATES[m] in qualities
        invariant forall state <- states :: state in qualities && states[state] == ExactCount(records, state, pids)
        invariant forall state <- qualities :: state in states
                    && qualities[state] == if states[state].Some? then Exact else Unavailable
      {
        var state := STATES[n];
        var count := Owned(records, state, pids);
        states := states[state := count];
        qualities := qualities[state := if count.Some? then Exact else Unavailable];
      }
      forall state: State
        ensures state in states && state in qualities
      {
        var m := match state
          case Estab => 0
          case SynSent => 1
          case SynRecv => 2
          case FinWait1 => 3
          case FinWait2 => 4
          case CloseWait => 5
          case TimeWait => 6;
        assert STATES[m] == state;
      }
    }

    method Owned(records: seq<Record>, state: State, pids: set<int>) returns (count: Option<nat>)
      ensures count == ExactCount(records, state, pids)
    {
      var n := 0;
      for k := 0 to |records|
        invariant n == CountOwned(records[..k], state, pids)
        invariant forall r <- records[..k] :: r.state == Some(state) ==> r.pid.Some?
      {
        assert records[..k + 1] == records[..k] + [records[k]] && records[..k + 1][..k] == records[..k];
        if records[k].state == Some(state) {
          if records[k].pid.None? {
            assert records[k] in records;
            return None;
          }
          if records[k].pid.value in pids {
            n := n + 1;
          }
        }
      }
      assert records[..|records|] == records;
      return Some(n);
    }

    /** The socket counts of one service: counted in a full snapshot, else taken from the cache if
        the processes are the same. */
    method ServiceSocketMetrics(service: string, c: Cycle) returns (established: Reading, states: map<State, Reading>)
      requires Valid()
      modifies this
      ensures Valid()
      ensures forall other :: other != service ==> Cached(other) == old(Cached(other))
      ensures Cached(service) == CacheAfter(old(Cached(service)), c)
      ensures forall state: State :: state in states && states[state] == Reported(old(Cached(service)), c, state)
      ensures established == Reported(old(Cached(service)), c, Estab)
    {
      var before := Cached(service);
      if c.pids != {} && c.authoritative && c.due && c.records.Some? {
        var counts, qualities := CountStates(c.records.value, c.pids);
        established := Reading(counts[Estab], qualities[Estab]);
        states := map state: State {:trigger counts[state]} | state in counts ::
          Reading(counts[state], qualities[state]);
        if c.process.Some? {
          SameCounts(counts, c);
          cache := cache[service := Entry(Encode(c.process.value), counts[Estab], counts)];
        }
      } else {
        established := NO_READING;
        states := map state: State {:trigger Reported(before, c, state)} | true :: NO_READING;
        if c.pids != {} && c.authoritative && c.process.Some? && (!c.due || c.records.None?) {
          if before.Some? && before.value.identity == Encode(c.process.value) {
            if before.value.established.Some? {
              established := Reading(before.value.established, Estimated);
            }
            states := map state: State {:trigger Reported(before, c, state)} | true ::
              if before.value.states[state].Some? then Reading(before.value.states[state], Estimated) else NO_READING;
          }
        }
      }
    }
  }

  lemma SameCounts(counts: map<State, Option<nat>>, c: Cycle)
    requires Snapshot(c) && c.process.Some?
    requires forall state: State :: state in counts && counts[state] == ExactCount(c.records.value, state, c.pids)
    ensures counts == EntryOf(c).states
  {
    var expected := EntryOf(c).states;
    assert forall state: State :: state in expected && expected[state] == ExactCount(c.records.value, state, c.pids);
    assert forall state <- counts :: state in expected && counts[state] == expected[state];
  }

  // ----- Whole runs ---------------------------------------------------------------------

  function CacheOf(run: seq<Cycle>): (cache: Option<Entry>)
    ensures cache.Some? ==> Complete(cache.value)
  {
    if run == [] then None else CacheAfter(CacheOf(run[..|run| - 1]), run[|run| - 1])
  }

  /** The last full snapshot that was remembered. */
  function LastSnapshot(run: seq<Cycle>): (r: Option<Cycle>)
    ensures r.Some? ==> r.value in run && Snapshot(r.value) && r.value.process.Some?
  {
    if run == [] then None
    else if Snapshot(run[|run| - 1]) && run[|run| - 1].process.Some? then Some(run[|run| - 1])
    else LastSnapshot(run[..|run| - 1])
  }

  lemma {:induction false} CacheIsLastSnapshot(run: seq<Cycle>)
    ensures CacheOf(run) == if LastSnapshot(run).None? then None else Some(EntryOf(LastSnapshot(run).value))
  {
    if run != [] {
      CacheIsLastSnapshot(run[..|run| - 1]);
    }
  }

  /** In every run: between snapshots a count is reported, as an estimate, exactly when the last
      remembered snapshot counted these very processes, and it is the exact count of then. */
  lemma EstimatesAreLastCounts(run: seq<Cycle>, c: Cycle, state: State)
    requires Between(c)
    ensures var last, r := LastSnapshot(run), Reported(CacheOf(run), c, state);
            && (r.quality == Estimated <==>
                  && last.Some? && last.value.process == c.process
                  && ExactCount(last.value.records.value, state, last.value.pids).Some?)
            && (r.quality == Estimated ==> r.value == ExactCount(last.value.records.value, state, last.value.pids))
            && (r.quality != Estimated ==> r == NO_READING)
  {
    CacheIsLastSnapshot(run);
    var last := LastSnapshot(run);
    if last.Some? && Encode(last.value.process.value) == Encode(c.process.value) {
      IdentityIsInjective(last.value.process.value, c.process.value);
    }
  }

  // ----- What the readings mean ---------------------------------------------------------

  /** The sockets of a state that belong to the given processes, by their place in the snapshot. */
  ghost function OwnedBy(records: seq<Record>, state: State, pids: set<int>): set<nat> {
    set k: nat | k < |records| && exists pid <- pids :: records[k] == Record(Some(state), Some(pid))
  }

  lemma OwnedStep(records: seq<Record>, state: State, pids: set<int>)
    requires records != []
    ensures var k, all := |records| - 1, OwnedBy(records, state, pids);
            var few := OwnedBy(records[..k], state, pids);
            && k !in few
            && all == if exists pid <- pids :: records[k] == Record(Some(state), Some(pid)) then few + {k} else few
  {
    var k := |records| - 1;
    var all, few := OwnedBy(records, state, pids), OwnedBy(records[..k], state, pids);
    forall j: nat | j < k
      ensures j in all <==> j in few
    {
      assert records[..k][j] == records[j];
    }
  }

  lemma {:induction false} CountIsNumberOwned(records: seq<Record>, state: State, pids: set<int>)
    ensures CountOwned(records, state, pids) == |OwnedBy(records, state, pids)|
  {
    if records == [] {
      assert OwnedBy(records, state, pids) == {};
    } else {
      hide OwnedBy;
      OwnedStep(records, state, pids);
      CountIsNumberOwned(records[..|records| - 1], state, pids);
      var last := records[|records| - 1];
      if last.state == Some(state) && last.pid.Some? && last.pid.value in pids {
        var pid := last.pid.value;
        assert pid in pids && last == Record(Some(state), Some(pid));
      } else {
        assert forall pid <- pids :: last != Record(Some(state), Some(pid));
      }
    }
  }

  /** Every socket of a state could be attributed to a process. */
  predicate Attributed(records: seq<Record>, state: State) {
    forall k :: 0 <= k < |records| && records[k].state == Some(state) ==> records[k].pid.Some?
  }

  lemma ExactCountMeans(records: seq<Record>, state: State, pids: set<int>)
    ensures ExactCount(records, state, pids) ==
            if Attributed(records, state) then Some(|OwnedBy(records, state, pids)|) else None
  {
    CountIsNumberOwned(records, state, pids);
    assert Attributed(records, state) <==> !exists r <- records :: r.state == Some(state) && r.pid.None?;
  }

  /** The i-th cycle is the last one that took a full snapshot of processes it could identify. */
  ghost predicate LastRemembered(run: seq<Cycle>, i: int) {
    0 <= i < |run| && Remembered(run[i]) && forall j :: i < j < |run| ==> !Remembered(run[j])
  }

  predicate Remembered(c: Cycle) {
    c.pids != {} && c.authoritative && c.due && c.records.Some? && c.process.Some?
  }

  lemma {:induction false} LastSnapshotIs(run: seq<Cycle>)
    ensures forall i :: LastRemembered(run, i) ==> LastSnapshot(run) == Some(run[i])
    ensures LastSnapshot(run).Some? ==> exists i :: LastRemembered(run, i)
  {
    if run != [] {
      var front, last := run[..|run| - 1], run[|run| - 1];
      LastSnapshotIs(front);
      if Remembered(last) {
        assert LastRemembered(run, |run| - 1);
      } else {
        assert forall i :: LastRemembered(run, i) ==> LastRemembered(front, i);
        assert forall i :: LastRemembered(front, i) ==> LastRemembered(run, i);
      }
    }
  }

  /** In every run, a state has an exact count just when a snapshot is due and taken in which every
      socket of the state could be attributed: the number of those sockets owned by the service. It is
      estimated exactly when no snapshot is due or none could be taken, the service has
      the very processes of the last remembered snapshot, and that one counted the state; the value is
      the number owned then. In every other case there is no value. */
  lemma ReadingsMean(run: seq<Cycle>, c: Cycle, state: State)
    ensures var r := Reported(CacheOf(run), c, state);
            && (r.quality == Exact <==>
                  && c.pids != {} && c.authoritative && c.due && c.records.Some?
                  && Attributed(c.records.value, state))
            && (r.quality == Exact ==> r.value == Some(|OwnedBy(c.records.value, state, c.pids)|))
            && (r.quality == Estimated <==>
                  && c.pids != {} && c.authoritative && c.process.Some? && (!c.due || c.records.None?)
                  && exists i :: LastRemembered(run, i) && run[i].process == c.process
                       && Attributed(run[i].records.value, state))
            && (forall i :: r.quality == Estimated && LastRemembered(run, i) ==>
                  r.value == Some(|OwnedBy(run[i].records.value, state, run[i].pids)|))
            && (r.quality == Unavailable <==> r.value.None?)
  {
    LastSnapshotIs(run);
    if Between(c) {
      EstimatesAreLastCounts(run, c, state);
      if LastSnapshot(run).Some? {
        var i :| LastRemembered(run, i);
        ExactCountMeans(run[i].records.value, state, run[i].pids);
      }
    }
    if c.records.Some? {
      ExactCountMeans(c.records.value, state, c.pids);
    }
    hide CacheOf, ExactCount, OwnedBy, Attributed, LastSnapshot;
  }

  /** The identity text: the start mark, then every process with its start time. */
  lemma IdentityText(start: string)
    ensures Encode(Process(start, [])) == start + "|"
    ensures Encode(Process(start, [(12, 7), (3, 405)])) == start + "|" + "12:7" + "," + "3:405"
  {
    DigitsExamples();
    var members: seq<(nat, nat)> := [(12, 7), (3, 405)];
    assert Member((12, 7)) == "12:7" && Member((3, 405)) == "3:405";
    assert members[1..] == [(3, 405)] && Join(members[1..]) == "3:405";
    assert Join(members) == "12:7" + "," + "3:405";
  }
}
