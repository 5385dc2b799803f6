/** Transition events built from persisted state: what a run of observations writes to the
    event log is enough to tell the state that was observed last. */
module Transitions {
  import opened Common

  /** A decoded value of the state table; `Absent` also stands for null and for text that does not
      decode. */
  datatype Stored = Absent | Flag(on: bool) | Word(text: string) | Members(values: set<string>)

  datatype StateKey = SourceKey(source: string) | ValueKey(key: string) | EdgeKey(key: string) | SetKey(key: string)

  datatype Code = SourceAvailable | SourceUnavailable | OptionalUnsupported | OptionalAvailable
                | Changed(previous: Stored, current: Stored) | Rose | Added(member: string) | Removed(member: string)

  datatype Optional = Available | Unsupported | Failed

  // ----- What one observation writes ----------------------------------------------------

  function AvailabilityEvents(previous: Stored, available: bool): seq<Code> {
    if previous.Absent? && available then []
    else if !previous.Absent? && Truthy(previous) == available then []
    else [if available then SourceAvailable else SourceUnavailable]
  }

  /** How the code reads a stored value as a truth value. */
  predicate Truthy(s: Stored) {
    match s
    case Absent => false
    case Flag(on) => on
    case Word(text) => text != ""
    case Members(values) => values != {}
  }

  function NameOf(o: Optional): string {
    match o
    case Available => "available"
    case Unsupported => "unsupported"
    case Failed => "failed"
  }

  /** Earlier versions stored a flag for a source; any other value is read as no value. */
  function PreviousOptional(s: Stored): Option<Optional> {
    if s == Flag(true) || s == Word("available") then Some(Available)
    else if s == Flag(false) || s == Word("failed") then Some(Failed)
    else if s == Word("unsupported") then Some(Unsupported)
    else None
  }

  function OptionalEvents(previous: Stored, current: Optional): seq<Code> {
    var before := PreviousOptional(previous);
    if before == Some(current) || (before.None? && current.Available?) then []
    else if current.Unsupported? then [OptionalUnsupported]
    else if current.Available? && before == Some(Unsupported) then [OptionalAvailable]
    else [if current.Available? then SourceAvailable else SourceUnavailable]
  }

  function ValueEvents(previous: Stored, value: Stored, emitInitial: bool): seq<Code> {
    if previous == value || (previous.Absent? && !emitInitial) then [] else [Changed(previous, value)]
  }

  function EdgeEvents(previous: Stored, active: bool): seq<Code> {
    if !active || previous == Flag(true) then [] else [Rose]
  }

  /** Alphabetical order, by code point. */
  predicate Less(a: string, b: string) {
    if a == [] then b != []
    else b != [] && (a[0] < b[0] || (a[0] == b[0] && Less(a[1..], b[1..])))
  }

  function MemberOf(e: Code): string {
    if e.Added? || e.Removed? then e.member else ""
  }

  /** Each member once, in alphabetical order. */
  predicate Ascending(events: seq<Code>) {
    forall i, j :: 0 <= i < j < |events| ==> Less(MemberOf(events[i]), MemberOf(events[j]))
  }

  /** One event of the given kind per member of a set. */
  ghost predicate Lists(events: seq<Code>, values: set<string>, added: bool) {
    && (forall e <- events :: if added then e.Added? else e.Removed?)
    && (forall v :: (if added then Added(v) else Removed(v)) in events <==> v in values)
    && Ascending(events)
  }

  /** What one observation reports: the members that appeared, then those that disappeared, each in
      alphabetical order. */
  ghost predicate SetEvents(previous: Stored, values: set<string>, events: seq<Code>) {
    if previous.Absent? then events == []
    else
      var before := if previous.Members? then previous.values else {};
      exists k :: 0 <= k <= |events| && Lists(events[..k], values - before, true)
        && Lists(events[k..], before - values, false)
  }

  lemma {:induction false} LessIsTotal(a: string, b: string)
    ensures a == b || Less(a, b) || Less(b, a)
  {
    if a != [] && b != [] && a[0] == b[0] {
      LessIsTotal(a[1..], b[1..]);
      assert a == [a[0]] + a[1..] && b == [b[0]] + b[1..];
    }
  }

  lemma {:induction false} LessIsTransitive(a: string, b: string, c: string)
    requires Less(a, b) && Less(b, c)
    ensures Less(a, c)
  {
    if a != [] && a[0] == b[0] == c[0] {
      LessIsTransitive(a[1..], b[1..], c[1..]);
    }
  }

  predicate IsFirst(v: string, values: set<string>) {
    v in values && forall u <- values :: u != v ==> Less(v, u)
  }

  /** Every non-empty set has an alphabetically first member. */
  lemma {:induction false} SomeFirst(values: set<string>) returns (v: string)
    requires values != {}
    ensures IsFirst(v, values)
  {
    var x: string :| x in values;
    var rest := values - {x};
    v := x;
    if rest != {} {
      var u := SomeFirst(rest);
      LessIsTotal(u, x);
      v := if Less(u, x) then u else x;
      forall w | w in values && w != v
        ensures Less(v, w)
      {
        assert w == x || w in rest;
        if v == x && w != u {
          LessIsTransitive(x, u, w);
        }
      }
    } else {
      forall w | w in values
        ensures w == x
      {
        assert w !in rest;
      }
    }
  }

  class EventState {
    var state: map<StateKey, Stored>

    function Get(key: StateKey): Stored
      reads this
    {
      if key in state then state[key] else Absent
    }

    method Availability(source: string, available: bool) returns (events: seq<Code>)
      modifies this
      ensures state == old(state)[SourceKey(source) := Flag(available)]
      ensures events == AvailabilityEvents(old(Get(SourceKey(source))), available)
    {
      var previous := Get(SourceKey(source));
      state := state[SourceKey(source) := Flag(available)];
      if previous.Absent? && available {
        return [];
      }
      if !previous.Absent? && Truthy(previous) == available {
        return [];
      }
      var code := if available then SourceAvailable else SourceUnavailable;
      return [code];
    }

    method OptionalAvailability(source: string, current: Optional) returns (events: seq<Code>)
      modifies this
      ensures state == old(state)[SourceKey(source) := Word(NameOf(current))]
      ensures current.Unsupported? ==> state[SourceKey(source)] == Word("unsupported")
      ensures current.Failed? ==> state[SourceKey(source)] == Word("failed")
      ensures events == OptionalEvents(old(Get(SourceKey(source))), current)
    {
      var raw := Get(SourceKey(source));
      var previous: Option<Optional> := None;
      if raw == Flag(true) {
        previous := Some(Available);
      } else if raw == Flag(false) {
        previous := Some(Failed);
      } else if raw.Word? && (raw.text == "available" || raw.text == "unsupported" || raw.text == "failed") {
        previous := Some(if raw.text == "available" then Available
                         else if raw.text == "failed" then Failed else Unsupported);
      }
      state := state[SourceKey(source) := Word(NameOf(current))];
      if previous == Some(current) || (previous.None? && current.Available?) {
        return [];
      }
      if current.Unsupported? {
        return [OptionalUnsupported];
      }
      if current.Available? && previous == Some(Unsupported) {
        return [OptionalAvailable];
      }
      var code := if current.Available? then SourceAvailable else SourceUnavailable;
      return [code];
    }

    method ValueTransition(key: string, value: Stored, emitInitial: bool) returns (events: seq<Code>)
      modifies this
      ensures state == old(state)[ValueKey(key) := value]
      ensures events == ValueEvents(old(Get(ValueKey(key))), value, emitInitial)
    {
      var previous := Get(ValueKey(key));
      state := state[ValueKey(key) := value];
      if previous == value || (previous.Absent? && !emitInitial) {
        return [];
      }
      return [Changed(previous, value)];
    }

    method Edge(key: string, active: bool) returns (events: seq<Code>)
      modifies this
      ensures state == old(state)[EdgeKey(key) := Flag(active)]
      ensures events == EdgeEvents(old(Get(EdgeKey(key))), active)
    {
      var previous := Get(EdgeKey(key));
      state := state[EdgeKey(key) := Flag(active)];
      if !active || previous == Flag(true) {
        return [];
      }
      return [Rose];
    }

    method SetTransitions(key: string, values: set<string>) returns (events: seq<Code>)
      modifies this
      ensures state == old(state)[SetKey(key) := Members(values)]
      ensures SetEvents(old(Get(SetKey(key))), values, events)
    {
      var previous := Get(SetKey(key));
      state := state[SetKey(key) := Members(values)];
      if previous.Absent? {
        return [];
      }
      var before := if previous.Members? then previous.values else {};
      var added := Listed(values - before, true);
      var removed := Listed(before - values, false);
      events := added + removed;
      assert events[..|added|] == added && events[|added|..] == removed;
    }

    /** One event per member, in alphabetical order. */
    method Listed(values: set<string>, added: bool) returns (events: seq<Code>)
      ensures Lists(events, values, added)
    {
      events := [];
      var left := values;
      while left != {}
        invariant left <= values && Lists(events, values - left, added)
        invariant forall i, v :: 0 <= i < |events| && v in left ==> Less(MemberOf(events[i]), v)
        decreases left
      {
        ghost var first := SomeFirst(left);
        var v: string :| v in left && IsFirst(v, left);
        FirstIsBefore(v, left);
        var e := if added then Added(v) else Removed(v);
        ListsOne(events, values - left, added, v);
        assert values - (left - {v}) == (values - left) + {v};
        events := events + [e];
        left := left - {v};
      }
      assert values - {} == values;
    }
  }

  lemma FirstIsBefore(v: string, values: set<string>)
    requires IsFirst(v, values)
    ensures forall w <- values :: w != v ==> Less(v, w)
  {
  }

  lemma ListsOne(events: seq<Code>, values: set<string>, added: bool, v: string)
    requires Lists(events, values, added) && forall i :: 0 <= i < |events| ==> Less(MemberOf(events[i]), v)
    ensures Lists(events + [if added then Added(v) else Removed(v)], values + {v}, added)
  {
  }

  // ----- Whole runs ---------------------------------------------------------------------

  /** The log a run of availability observations of a new source writes. */
  function AvailabilityLog(obs: seq<bool>): seq<Code> {
    if obs == [] then []
    else AvailabilityLog(obs[..|obs| - 1]) + AvailabilityEvents(LastFlag(obs[..|obs| - 1]), obs[|obs| - 1])
  }

  function LastFlag(obs: seq<bool>): Stored {
    if obs == [] then Absent else Flag(obs[|obs| - 1])
  }

  /** Availability events alternate, beginning with the source becoming unavailable, and their
      number tells what was observed last. */
  lemma {:induction false} AvailabilityAlternates(obs: seq<bool>)
    ensures forall i :: 0 <= i < |AvailabilityLog(obs)| ==>
              AvailabilityLog(obs)[i] == if i % 2 == 0 then SourceUnavailable else SourceAvailable
    ensures obs != [] ==> (obs[|obs| - 1] <==> |AvailabilityLog(obs)| % 2 == 0)
    ensures obs == [] ==> AvailabilityLog(obs) == []
  {
    if obs != [] {
      AvailabilityAlternates(obs[..|obs| - 1]);
    }
  }

  /** A source observed plainly at first and as an optional source afterwards. */
  function SourceState(flags: seq<bool>, obs: seq<Optional>): Stored {
    if obs == [] then LastFlag(flags) else Word(NameOf(obs[|obs| - 1]))
  }

  function SourceLog(flags: seq<bool>, obs: seq<Optional>): seq<Code> {
    if obs == [] then AvailabilityLog(flags)
    else SourceLog(flags, obs[..|obs| - 1]) + OptionalEvents(SourceState(flags, obs[..|obs| - 1]), obs[|obs| - 1])
  }

  /** The state the last event of a log tells; no event means the source has been available. */
  function Told(log: seq<Code>): Optional {
    if log == [] then Available
    else match log[|log| - 1]
         case SourceUnavailable => Failed
         case OptionalUnsupported => Unsupported
         case _ => Available
  }

  /** The last event of an optional source determines its current state, also across the change
      from plain observations. */
  lemma {:induction false} LastEventTellsState(flags: seq<bool>, obs: seq<Optional>)
    requires flags != [] || obs != []
    ensures PreviousOptional(SourceState(flags, obs)) == Some(Told(SourceLog(flags, obs)))
  {
    if obs == [] {
      AvailabilityAlternates(flags);
    } else {
      hide NameOf, PreviousOptional;
      var front, last := obs[..|obs| - 1], obs[|obs| - 1];
      if flags == [] && front == [] {
        assert SourceLog(flags, front) == [];
      } else {
        LastEventTellsState(flags, front);
      }
      NamesAreRead(last);
      OptionalStep(SourceState(flags, front), SourceLog(flags, front), last);
    }
  }

  lemma OptionalStep(previous: Stored, log: seq<Code>, current: Optional)
    requires PreviousOptional(previous) == Some(Told(log)) || (previous.Absent? && log == [])
    ensures Told(log + OptionalEvents(previous, current)) == current
  {
    assert PreviousOptional(Absent) == None;
    hide PreviousOptional;
    var events := OptionalEvents(previous, current);
    if events == [] {
      assert log + events == log;
    }
  }

  lemma NamesAreRead(o: Optional)
    ensures PreviousOptional(Word(NameOf(o))) == Some(o)
  {
    assert "available"[0] != "failed"[0] && "available"[0] != "unsupported"[0] && "failed"[0] != "unsupported"[0];
  }

  /** The states a source was observed in, plain observations first. */
  function Observations(flags: seq<bool>, obs: seq<Optional>): seq<Optional> {
    seq(|flags|, i requires 0 <= i < |flags| => if flags[i] then Available else Failed) + obs
  }

  /** The event of a change of state; no event if nothing changed. */
  function ChangeOf(before: Optional, current: Optional): seq<Code> {
    match (before, current)
    case (Unsupported, Available) => [OptionalAvailable]
    case (Failed, Available) => [SourceAvailable]
    case (Available, Unsupported) => [OptionalUnsupported]
    case (Failed, Unsupported) => [OptionalUnsupported]
    case (Available, Failed) => [SourceUnavailable]
    case (Unsupported, Failed) => [SourceUnavailable]
    case _ => []
  }

  function LastState(states: seq<Optional>): Optional {
    if states == [] then Available else states[|states| - 1]
  }

  /** The changes of a row of states, counted from available. */
  function Changes(states: seq<Optional>): seq<Code> {
    if states == [] then []
    else
      var front := states[..|states| - 1];
      Changes(front) + ChangeOf(LastState(front), LastState(states))
  }

  /** The log of a source tells its changes of state and nothing else: an observation that finds the
      state as it was writes nothing, and every other one writes the one event of that change. */
  lemma {:induction false} LogTellsChanges(flags: seq<bool>, obs: seq<Optional>)
    ensures SourceLog(flags, obs) == Changes(Observations(flags, obs))
  {
    hide NameOf, PreviousOptional, ChangeOf, AvailabilityEvents, OptionalEvents, SourceState, LastFlag;
    var states := Observations(flags, obs);
    if obs != [] {
      var front := obs[..|obs| - 1];
      LogTellsChanges(flags, front);
      assert states[..|states| - 1] == Observations(flags, front);
      OptionalChange(flags, front, obs[|obs| - 1]);
    } else if flags != [] {
      var front := flags[..|flags| - 1];
      LogTellsChanges(front, []);
      assert states[..|states| - 1] == Observations(front, []);
      PlainChange(front, flags[|flags| - 1]);
    }
  }

  lemma PlainChange(flags: seq<bool>, available: bool)
    ensures AvailabilityEvents(LastFlag(flags), available) ==
            ChangeOf(LastState(Observations(flags, [])), if available then Available else Failed)
  {
  }

  lemma OptionalChange(flags: seq<bool>, obs: seq<Optional>, current: Optional)
    ensures OptionalEvents(SourceState(flags, obs), current) == ChangeOf(LastState(Observations(flags, obs)), current)
  {
    hide NameOf, PreviousOptional;
    StateIsRead(flags, obs);
  }

  /** The stored state is read as the one observed last. */
  lemma StateIsRead(flags: seq<bool>, obs: seq<Optional>)
    ensures var states := Observations(flags, obs);
            PreviousOptional(SourceState(flags, obs)) == if states == [] then None else Some(states[|states| - 1])
  {
    if obs != [] {
      NamesAreRead(obs[|obs| - 1]);
    }
  }

  /** A plain observation reads any word as available, whichever it is. */
  lemma WordsReadAsAvailable(o: Optional, available: bool)
    ensures AvailabilityEvents(Word(NameOf(o)), available) == if available then [] else [SourceUnavailable]
  {
    assert NameOf(o) != "" by {
      assert |NameOf(o)| > 0;
    }
  }

  /** How often a condition has become true. */
  function RisingEdges(obs: seq<bool>): nat {
    if obs == [] then 0
    else RisingEdges(obs[..|obs| - 1]) + if obs[|obs| - 1] && (|obs| == 1 || !obs[|obs| - 2]) then 1 else 0
  }

  function EdgeLog(obs: seq<bool>): seq<Code> {
    if obs == [] then []
    else EdgeLog(obs[..|obs| - 1]) + EdgeEvents(LastFlag(obs[..|obs| - 1]), obs[|obs| - 1])
  }

  /** One event per rising edge, written by the observation that rises. */
  lemma {:induction false} OneEventPerRisingEdge(obs: seq<bool>)
    ensures |EdgeLog(obs)| == RisingEdges(obs) && forall e <- EdgeLog(obs) :: e == Rose
    ensures obs != [] ==> (|EdgeLog(obs)| == |EdgeLog(obs[..|obs| - 1])| + 1 <==>
                           obs[|obs| - 1] && (|obs| == 1 || !obs[|obs| - 2]))
  {
    if obs != [] {
      OneEventPerRisingEdge(obs[..|obs| - 1]);
    }
  }

  // ----- Sets ---------------------------------------------------------------------------

  /** The sets observed one after another and the events each observation wrote. */
  datatype SetRun = NoSets | Observed(before: SetRun, values: set<string>, events: seq<Code>)

  function LastSet(run: SetRun): Stored {
    match run
    case NoSets => Absent
    case Observed(_, values, _) => Members(values)
  }

  ghost predicate Written(run: SetRun) {
    match run
    case NoSets => true
    case Observed(before, values, events) => Written(before) && SetEvents(LastSet(before), values, events)
  }

  function SetLog(run: SetRun): seq<Code> {
    match run
    case NoSets => []
    case Observed(before, _, events) => SetLog(before) + events
  }

  function FirstSet(run: SetRun): set<string>
    requires run.Observed?
  {
    if run.before.NoSets? then run.values else FirstSet(run.before)
  }

  function Apply(values: set<string>, e: Code): set<string> {
    match e
    case Added(v) => values + {v}
    case Removed(v) => values - {v}
    case _ => values
  }

  function Replay(values: set<string>, log: seq<Code>): set<string> {
    if log == [] then values else Apply(Replay(values, log[..|log| - 1]), log[|log| - 1])
  }

  lemma {:induction false} ReplayAppend(values: set<string>, a: seq<Code>, b: seq<Code>)
    ensures Replay(values, a + b) == Replay(Replay(values, a), b)
  {
    if b == [] {
      assert a + b == a;
    } else {
      assert (a + b)[..|a + b| - 1] == a + b[..|b| - 1];
      ReplayAppend(values, a, b[..|b| - 1]);
    }
  }

  /** Replaying events that never name a member both ways: what is added ends up in, what is
      removed ends up out, and the rest stays. */
  lemma {:induction false} ReplayMembers(values: set<string>, log: seq<Code>)
    requires forall e <- log :: e.Added? || e.Removed?
    requires forall v :: !(Added(v) in log && Removed(v) in log)
    ensures forall v :: v in Replay(values, log) <==> Added(v) in log || (v in values && Removed(v) !in log)
  {
    if log != [] {
      var front, last := log[..|log| - 1], log[|log| - 1];
      assert log == front + [last];
      ReplayMembers(values, front);
    }
  }

  /** What one observation reports, as far as replaying is concerned. */
  lemma SetEventsMembers(previous: Stored, values: set<string>, events: seq<Code>)
    requires previous.Members? && SetEvents(previous, values, events)
    ensures forall e <- events :: e.Added? || e.Removed?
    ensures forall v :: Added(v) in events <==> v in values - previous.values
    ensures forall v :: Removed(v) in events <==> v in previous.values - values
  {
    var k :| && 0 <= k <= |events| && Lists(events[..k], values - previous.values, true)
             && Lists(events[k..], previous.values - values, false);
    hide Ascending;
    assert events == events[..k] + events[k..];
    forall v: string
      ensures Added(v) in events <==> v in values - previous.values
      ensures Removed(v) in events <==> v in previous.values - values
    {
    }
  }

  /** Replaying the log on the first observed set reconstructs the current one. */
  lemma {:induction false} ReplayReconstructs(run: SetRun)
    requires Written(run) && run.Observed?
    ensures Replay(FirstSet(run), SetLog(run)) == run.values
  {
    if run.before.NoSets? {
      assert SetLog(run) == [];
    } else {
      ReplayReconstructs(run.before);
      ReplayAppend(FirstSet(run), SetLog(run.before), run.events);
      SetEventsMembers(LastSet(run.before), run.values, run.events);
      ReplayMembers(run.before.values, run.events);
    }
  }

  // ----- Values -------------------------------------------------------------------------

  function LastValue(obs: seq<Stored>): Stored {
    if obs == [] then Absent else obs[|obs| - 1]
  }

  function ValueLog(obs: seq<Stored>, emitInitial: bool): seq<Code> {
    if obs == [] then []
    else ValueLog(obs[..|obs| - 1], emitInitial) + ValueEvents(LastValue(obs[..|obs| - 1]), obs[|obs| - 1], emitInitial)
  }

  /** Where a chain of real changes leads that starts at `first`; `None` if it is broken. */
  function ChainEnd(log: seq<Code>, first: Stored): Option<Stored> {
    if log == [] then Some(first)
    else
      var e, at := log[|log| - 1], ChainEnd(log[..|log| - 1], first);
      if e.Changed? && e.previous != e.current && at == Some(e.previous) then Some(e.current) else None
  }

  lemma ChainEndOne(log: seq<Code>, first: Stored, e: Code)
    ensures ChainEnd(log + [e], first) ==
            if e.Changed? && e.previous != e.current && ChainEnd(log, first) == Some(e.previous)
            then Some(e.current) else None
  {
    assert (log + [e])[..|log|] == log;
  }

  /** A value that appears where there was none after the first observation goes unreported, unless
      first values are reported too. */
  predicate Silent(obs: seq<Stored>, emitInitial: bool) {
    !emitInitial && exists i :: 0 < i < |obs| && obs[i - 1].Absent? && !obs[i].Absent?
  }

  /** Value events form a chain of real changes from the first value (or from none, when the first
      value is reported too) to the last one observed, exactly when no appearance went
      unreported. */
  lemma {:induction false} ValuesFormAChain(obs: seq<Stored>, emitInitial: bool)
    requires obs != []
    ensures ChainEnd(ValueLog(obs, emitInitial), if emitInitial then Absent else obs[0]) == Some(LastValue(obs))
       <==> !Silent(obs, emitInitial)
    ensures Silent(obs, emitInitial) ==>
              var end := ChainEnd(ValueLog(obs, emitInitial), obs[0]);
              end.None? || (end == Some(Absent) && !LastValue(obs).Absent?)
  {
    var front, last := obs[..|obs| - 1], obs[|obs| - 1];
    var first := if emitInitial then Absent else obs[0];
    var log := ValueLog(front, emitInitial);
    var events := ValueEvents(LastValue(front), last, emitInitial);
    if front == [] {
      assert log == [] && ChainEnd(log, first) == Some(first);
    } else {
      ValuesFormAChain(front, emitInitial);
      SilentStep(obs, emitInitial);
    }
    if events == [] {
      assert log + events == log;
    } else {
      ChainEndOne(log, first, events[0]);
    }
  }

  lemma SilentStep(obs: seq<Stored>, emitInitial: bool)
    requires |obs| > 1
    ensures Silent(obs, emitInitial) <==>
              || Silent(obs[..|obs| - 1], emitInitial)
              || (!emitInitial && obs[|obs| - 2].Absent? && !obs[|obs| - 1].Absent?)
  {
    var front := obs[..|obs| - 1];
    if i :| 0 < i < |obs| && obs[i - 1].Absent? && !obs[i].Absent? {
      assert i < |front| ==> front[i - 1].Absent? && !front[i].Absent?;
    }
    if i :| 0 < i < |front| && front[i - 1].Absent? && !front[i].Absent? {
      assert obs[i - 1].Absent? && !obs[i].Absent?;
    }
  }
}
