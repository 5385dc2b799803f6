/** Which recent events still stand as incidents: a later event about the same thing settles
    every earlier one. */
module Incidents {
  import opened Common

  datatype Code = ServiceStateChanged
                | ListenerDisappeared | ListenerReturned
                | SourceUnavailable | SourceAvailable
                | CollectionFailed | CollectionRecovered
                | CheckpointFailed | CheckpointRecovered
                | RetentionFailed | RetentionRecovered
                | EnvParseError | EnvParseRecovered
                | PidReplaced | OtherCode(name: string)

  datatype Family = Service | Listener | Source | Collection | Checkpoint | Retention | ManagedEnv

  /** An event; an empty service, source or tunnel means that it names none. `grave` is a severity
      of warning or worse, `down` a current state of failed or inactive. */
  datatype Event = Event(ts: int, code: Code, grave: bool, service: string, source: string, tunnel: string,
                         path: string, down: bool)

  datatype Metric = Metric(exact: bool, one: bool, ts: int)

  datatype Snapshot = Snapshot(now: int, recentSeconds: int, requiredServices: set<string>, tunnels: map<string, int>,
                               serviceActive: map<string, Metric>, listenerOwned: map<string, Metric>, invalidEnv: bool)

  datatype Verdict = Standing(code: Code) | ManagedEnvInvalid

  datatype Identity = Identity(family: Family, of: string)

  // ----- One event ----------------------------------------------------------------------

  /** The family of a failure or recovery code, and whether it is the failure. */
  function Paired(code: Code): Option<(Family, bool)> {
    match code
    case ListenerDisappeared => Some((Listener, true))
    case ListenerReturned => Some((Listener, false))
    case SourceUnavailable => Some((Source, true))
    case SourceAvailable => Some((Source, false))
    case CollectionFailed => Some((Collection, true))
    case CollectionRecovered => Some((Collection, false))
    case CheckpointFailed => Some((Checkpoint, true))
    case CheckpointRecovered => Some((Checkpoint, false))
    case RetentionFailed => Some((Retention, true))
    case RetentionRecovered => Some((Retention, false))
    case EnvParseError => Some((ManagedEnv, true))
    case EnvParseRecovered => Some((ManagedEnv, false))
    case _ => None
  }

  predicate Contains(text: string, part: string) {
    exists i :: 0 <= i <= |text| && part <= text[i..]
  }

  predicate HostSource(source: string) {
    source == "proc_stat" || source == "proc_meminfo" || source == "filesystem:/"
  }

  /** Recent, and about something that is still required. */
  predicate Eligible(s: Snapshot, e: Event) {
    && s.now - e.ts <= s.recentSeconds
    && (e.tunnel != "" ==> e.tunnel in s.tunnels && s.tunnels[e.tunnel] <= e.ts)
    && (e.service != "" ==> e.service in s.requiredServices)
    && ((e.code.SourceUnavailable? || e.code.SourceAvailable?) && e.source != "" ==>
          HostSource(e.source) || exists required <- s.requiredServices :: Contains(e.source, required))
  }

  /** What an event is about, if later events about the same thing settle it. */
  function IdentityOf(e: Event): Option<Identity> {
    if e.code.ServiceStateChanged? then Some(Identity(Service, if e.service != "" then e.service else "unknown"))
    else if Paired(e.code).Some? then
      Some(Identity(Paired(e.code).value.0,
                    if e.tunnel != "" then e.tunnel
                    else if e.service != "" then e.service
                    else if e.source != "" then e.source
                    else e.path))
    else None
  }

  /** A metric measured since the event says that all is well. */
  predicate Refuted(metrics: map<string, Metric>, name: string, e: Event) {
    name in metrics && metrics[name].exact && metrics[name].one && metrics[name].ts >= e.ts
  }

  /** What an event reports by itself, once the overrides are applied. */
  function Report(s: Snapshot, e: Event): Option<Verdict> {
    if e.code.ServiceStateChanged? then
      if e.grave && e.down && !Refuted(s.serviceActive, e.service, e) then Some(Standing(e.code)) else None
    else if Paired(e.code).Some? then
      var (family, failure) := Paired(e.code).value;
      if !failure then None
      else if family == Listener && e.tunnel != "" && Refuted(s.listenerOwned, e.tunnel, e) then None
      else if family == ManagedEnv then (if s.invalidEnv then Some(ManagedEnvInvalid) else None)
      else Some(Standing(e.code))
    else if e.code.PidReplaced? || e.grave then Some(Standing(e.code))
    else None
  }

  // ----- The rule -----------------------------------------------------------------------

  /** Newest first; events of the same second in the order they are listed. */
  predicate Ahead(events: seq<Event>, i: nat, j: nat)
    requires i < |events| && j < |events|
  {
    events[i].ts > events[j].ts || (events[i].ts == events[j].ts && i < j)
  }

  predicate SameThing(s: Snapshot, e: Event, other: Event) {
    Eligible(s, e) && IdentityOf(e) == IdentityOf(other)
  }

  /** An eligible event that is the newest eligible one with its identity, or has none. */
  ghost predicate Leads(s: Snapshot, events: seq<Event>, i: nat)
    requires i < |events|
  {
    && Eligible(s, events[i])
    && (IdentityOf(events[i]).Some? ==>
          forall j :: 0 <= j < |events| && j != i && SameThing(s, events[j], events[i]) ==> Ahead(events, i, j))
  }

  /** Only the leading events count. */
  ghost predicate Stands(s: Snapshot, events: seq<Event>, v: Verdict) {
    || (s.invalidEnv && v == ManagedEnvInvalid)
    || exists i :: 0 <= i < |events| && Leads(s, events, i) && Report(s, events[i]) == Some(v)
  }

  // ----- The code -----------------------------------------------------------------------

  predicate Positions(order: seq<nat>, n: nat) {
    forall p :: 0 <= p < |order| ==> order[p] < n
  }

  /** Each position of the listing is ahead of those after it. */
  ghost predicate Descending(events: seq<Event>, order: seq<nat>)
    requires Positions(order, |events|)
  {
    forall p, q :: 0 <= p < q < |order| ==> Ahead(events, order[p], order[q])
  }

  function InsertIndex(events: seq<Event>, order: seq<nat>, k: nat): (r: seq<nat>)
    requires k < |events| && Positions(order, |events|)
    ensures Positions(r, |events|)
  {
    if order == [] || events[order[|order| - 1]].ts >= events[k].ts then order + [k]
    else InsertIndex(events, order[..|order| - 1], k) + [order[|order| - 1]]
  }

  /** The positions of the first `n` events, stably sorted newest first. */
  function NewestFirst(events: seq<Event>, n: nat): (order: seq<nat>)
    requires n <= |events|
    ensures Positions(order, |events|)
  {
    if n == 0 then [] else InsertIndex(events, NewestFirst(events, n - 1), n - 1)
  }

  lemma {:induction false} InsertOrders(events: seq<Event>, order: seq<nat>, k: nat)
    requires k < |events| && Positions(order, k) && Descending(events, order)
    ensures forall i :: i in InsertIndex(events, order, k) <==> i in order || i == k
    ensures Descending(events, InsertIndex(events, order, k))
  {
    if order != [] && events[order[|order| - 1]].ts < events[k].ts {
      var front, last := order[..|order| - 1], order[|order| - 1];
      assert order == front + [last];
      InsertOrders(events, front, k);
      var r := InsertIndex(events, front, k);
      forall p | 0 <= p < |r|
        ensures Ahead(events, r[p], last)
      {
        assert r[p] in r;
        if r[p] != k {
          var q :| 0 <= q < |front| && front[q] == r[p];
          assert Ahead(events, order[q], order[|order| - 1]);
        }
      }
    } else if order != [] {
      forall p | 0 <= p < |order|
        ensures Ahead(events, order[p], k)
      {
        assert p < |order| - 1 ==> Ahead(events, order[p], order[|order| - 1]);
      }
    }
  }

  lemma {:induction false} NewestFirstOrders(events: seq<Event>, n: nat)
    requires n <= |events|
    ensures Descending(events, NewestFirst(events, n))
    ensures forall i :: i in NewestFirst(events, n) <==> 0 <= i < n
  {
    if n > 0 {
      NewestFirstOrders(events, n - 1);
      var order := NewestFirst(events, n - 1);
      forall p | 0 <= p < |order|
        ensures order[p] < n - 1
      {
        assert order[p] in order;
      }
      InsertOrders(events, order, n - 1);
    }
  }

  /** The verdicts of the first `n` events of the listing, and the identities they have settled. */
  ghost predicate Progress(s: Snapshot, events: seq<Event>, order: seq<nat>, n: nat, codes: set<Verdict>,
                           resolved: set<Identity>)
    requires Positions(order, |events|) && n <= |order|
  {
    && (forall v :: v in codes <==> exists p :: 0 <= p < n && Found(s, events, order[p], v))
    && (forall id :: id in resolved <==> exists p :: 0 <= p < n && About(s, events, order[p], id))
  }

  ghost predicate Found(s: Snapshot, events: seq<Event>, i: nat, v: Verdict)
    requires i < |events|
  {
    Leads(s, events, i) && Report(s, events[i]) == Some(v)
  }

  predicate About(s: Snapshot, events: seq<Event>, i: nat, id: Identity)
    requires i < |events|
  {
    Eligible(s, events[i]) && IdentityOf(events[i]) == Some(id)
  }

  /** The next event of the listing leads exactly when its identity is not settled yet. */
  lemma LeadsIfUnresolved(s: Snapshot, events: seq<Event>, order: seq<nat>, n: nat, codes: set<Verdict>,
                          resolved: set<Identity>)
    requires Positions(order, |events|) && Descending(events, order) && (forall i :: 0 <= i < |events| ==> i in order)
    requires n < |order| && Progress(s, events, order, n, codes, resolved)
    ensures Leads(s, events, order[n]) <==>
              Eligible(s, events[order[n]])
                && (IdentityOf(events[order[n]]).None? || IdentityOf(events[order[n]]).value !in resolved)
  {
    hide Eligible, IdentityOf, Report;
    var i := order[n];
    var id := IdentityOf(events[i]);
    if Eligible(s, events[i]) && id.Some? {
      if id.value in resolved {
        var p :| 0 <= p < n && About(s, events, order[p], id.value);
        assert Ahead(events, order[p], order[n]) && order[p] != order[n];
      } else {
        forall j | 0 <= j < |events| && j != i && Eligible(s, events[j]) && IdentityOf(events[j]) == id
          ensures Ahead(events, i, j)
        {
          assert j in order;
          var q :| 0 <= q < |order| && order[q] == j;
          assert About(s, events, order[q], id.value);
        }
      }
    }
  }

  lemma ProgressStep(s: Snapshot, events: seq<Event>, order: seq<nat>, n: nat, codes: set<Verdict>,
                     resolved: set<Identity>)
    requires Positions(order, |events|) && n < |order| && Progress(s, events, order, n, codes, resolved)
    ensures var e := events[order[n]];
            Progress(s, events, order, n + 1,
                     codes + (if Leads(s, events, order[n]) && Report(s, e).Some? then {Report(s, e).value} else {}),
                     resolved + (if Eligible(s, e) && IdentityOf(e).Some? then {IdentityOf(e).value} else {}))
  {
    CodesStep(s, events, order, n, codes, resolved);
    ResolvedStep(s, events, order, n, codes, resolved);
    hide Found, About, Leads, Eligible, IdentityOf, Report;
  }

  lemma CodesStep(s: Snapshot, events: seq<Event>, order: seq<nat>, n: nat, codes: set<Verdict>,
                  resolved: set<Identity>)
    requires Positions(order, |events|) && n < |order| && Progress(s, events, order, n, codes, resolved)
    ensures var e := events[order[n]];
            var more := if Leads(s, events, order[n]) && Report(s, e).Some? then {Report(s, e).value} else {};
            forall v :: v in codes + more <==> exists p :: 0 <= p < n + 1 && Found(s, events, order[p], v)
  {
    var e := events[order[n]];
    var more := if Leads(s, events, order[n]) && Report(s, e).Some? then {Report(s, e).value} else {};
    assert forall v :: v in more <==> Found(s, events, order[n], v);
    hide Found, About, Leads, Report;
    forall v: Verdict
      ensures v in codes + more <==> exists p :: 0 <= p < n + 1 && Found(s, events, order[p], v)
    {
    }
  }

  lemma ResolvedStep(s: Snapshot, events: seq<Event>, order: seq<nat>, n: nat, codes: set<Verdict>,
                     resolved: set<Identity>)
    requires Positions(order, |events|) && n < |order| && Progress(s, events, order, n, codes, resolved)
    ensures var e := events[order[n]];
            var settled := if Eligible(s, e) && IdentityOf(e).Some? then {IdentityOf(e).value} else {};
            forall id :: id in resolved + settled <==> exists p :: 0 <= p < n + 1 && About(s, events, order[p], id)
  {
    var e := events[order[n]];
    var settled := if Eligible(s, e) && IdentityOf(e).Some? then {IdentityOf(e).value} else {};
    assert forall id :: id in settled <==> About(s, events, order[n], id);
    hide Found, About, Eligible, IdentityOf;
    forall id: Identity
      ensures id in resolved + settled <==> exists p :: 0 <= p < n + 1 && About(s, events, order[p], id)
    {
    }
  }

  /** What one event adds, by the branches of the code. */
  method Judge(s: Snapshot, e: Event, resolved: set<Identity>) returns (found: Option<Verdict>, settled: set<Identity>)
    ensures settled == resolved + if Eligible(s, e) && IdentityOf(e).Some? then {IdentityOf(e).value} else {}
    ensures found ==
            if Eligible(s, e) && (IdentityOf(e).None? || IdentityOf(e).value !in resolved) then Report(s, e) else None
  {
    settled := resolved;
    if s.now - e.ts > s.recentSeconds {
      return None, settled;
    }
    if e.tunnel != "" && e.tunnel !in s.tunnels {
      return None, settled;
    }
    if e.tunnel != "" && e.ts < s.tunnels[e.tunnel] {
      return None, settled;
    }
    if e.service != "" && e.service !in s.requiredServices {
      return None, settled;
    }
    if (e.code.SourceUnavailable? || e.code.SourceAvailable?) && e.source != "" {
      var ofService := exists required <- s.requiredServices :: Contains(e.source, required);
      if !HostSource(e.source) && !ofService {
        return None, settled;
      }
    }
    assert Eligible(s, e);
    if e.code.ServiceStateChanged? {
      var identity := Identity(Service, if e.service != "" then e.service else "unknown");
      if identity in resolved {
        assert resolved + {identity} == resolved;
        return None, settled;
      }
      settled := resolved + {identity};
      var active := e.grave && e.down;
      if active && Refuted(s.serviceActive, e.service, e) {
        active := false;
      }
      return if active then Some(Standing(e.code)) else None, settled;
    }
    if Paired(e.code).Some? {
      found, settled := JudgePaired(s, e, resolved);
      return;
    }
    if e.code.PidReplaced? || e.grave {
      return Some(Standing(e.code)), settled;
    }
    return None, settled;
  }

  method JudgePaired(s: Snapshot, e: Event, resolved: set<Identity>)
    returns (found: Option<Verdict>, settled: set<Identity>)
    requires Paired(e.code).Some? && !e.code.ServiceStateChanged?
    ensures settled == resolved + {IdentityOf(e).value}
    ensures found == if IdentityOf(e).value !in resolved then Report(s, e) else None
  {
    var (family, active) := Paired(e.code).value;
    var name := if e.tunnel != "" then e.tunnel
                else if e.service != "" then e.service
                else if e.source != "" then e.source else e.path;
    var identity := Identity(family, name);
    if identity in resolved {
      assert resolved + {identity} == resolved;
      return None, resolved;
    }
    settled := resolved + {identity};
    if family == Listener && e.tunnel != "" {
      if active && Refuted(s.listenerOwned, e.tunnel, e) {
        active := false;
      }
    }
    if family == ManagedEnv {
      active := active && s.invalidEnv;
    }
    found := None;
    if active {
      found := Some(if family == ManagedEnv then ManagedEnvInvalid else Standing(e.code));
    }
  }

  /** Going through the events newest first with a set of settled identities finds exactly what
      the leading events report. */
  method RequiredEventCodes(s: Snapshot, events: seq<Event>) returns (codes: set<Verdict>)
    ensures forall v :: v in codes <==> Stands(s, events, v)
    ensures forall v :: v in codes <==> Means(s, events, v)
  {
    hide Means, Report, Eligible, IdentityOf, Leads, Found;
    var order := NewestFirst(events, |events|);
    NewestFirstOrders(events, |events|);
    var resolved: set<Identity> := {};
    codes := {};
    for n := 0 to |order|
      invariant Progress(s, events, order, n, codes, resolved)
    {
      LeadsIfUnresolved(s, events, order, n, codes, resolved);
      ProgressStep(s, events, order, n, codes, resolved);
      hide Progress;
      var found, settled := Judge(s, events[order[n]], resolved);
      resolved := settled;
      if found.Some? {
        codes := codes + {found.value};
      } else {
        assert codes + {} == codes;
      }
    }
    EveryPositionCounts(s, events, order, codes, resolved);
    if s.invalidEnv {
      codes := codes + {ManagedEnvInvalid};
    }
    forall v: Verdict
      ensures Stands(s, events, v) <==> Means(s, events, v)
    {
      VerdictsMean(s, events, v);
    }
  }

  lemma EveryPositionCounts(s: Snapshot, events: seq<Event>, order: seq<nat>, codes: set<Verdict>,
                            resolved: set<Identity>)
    requires Positions(order, |events|) && (forall i :: 0 <= i < |events| ==> i in order)
    requires Progress(s, events, order, |order|, codes, resolved)
    ensures forall v :: (s.invalidEnv && v == ManagedEnvInvalid) || v in codes <==> Stands(s, events, v)
  {
    forall v: Verdict
      ensures v in codes <==> exists i :: 0 <= i < |events| && Leads(s, events, i) && Report(s, events[i]) == Some(v)
    {
      if v in codes {
        var p :| 0 <= p < |order| && Found(s, events, order[p], v);
      }
      if i :| 0 <= i < |events| && Leads(s, events, i) && Report(s, events[i]) == Some(v) {
        assert i in order;
        var p :| 0 <= p < |order| && order[p] == i;
        assert Found(s, events, order[p], v);
      }
    }
  }

  // ----- Consequences -------------------------------------------------------------------

  function Shift(a: seq<Event>, i: nat): nat {
    if i < |a| then i else i + 1
  }

  /** Inserting an event, wherever it is listed, that is strictly older than an eligible event of
      the same identity changes no verdict. */
  lemma OlderEventsDoNotMatter(s: Snapshot, a: seq<Event>, x: Event, b: seq<Event>, k: nat, v: Verdict)
    requires k < |a + b| && Eligible(s, (a + b)[k]) && (a + b)[k].ts > x.ts
    requires IdentityOf(x).Some? && IdentityOf((a + b)[k]) == IdentityOf(x)
    ensures Stands(s, a + [x] + b, v) <==> Stands(s, a + b, v)
  {
    var few, many := a + b, a + [x] + b;
    hide Report, Eligible, IdentityOf;
    assert forall i :: 0 <= i < |few| ==> many[Shift(a, i)] == few[i];
    assert many[|a|] == x;
    if i :| 0 <= i < |few| && Leads(s, few, i) && Report(s, few[i]) == Some(v) {
      LeaderStays(s, a, x, b, k, i);
    }
    if i :| 0 <= i < |many| && Leads(s, many, i) && Report(s, many[i]) == Some(v) {
      if i == |a| {
        assert Ahead(many, i, Shift(a, k)) || !Leads(s, many, i);
      }
      LeaderWas(s, a, x, b, k, i);
    }
  }

  lemma LeaderStays(s: Snapshot, a: seq<Event>, x: Event, b: seq<Event>, k: nat, i: nat)
    requires k < |a + b| && Eligible(s, (a + b)[k]) && (a + b)[k].ts > x.ts
    requires IdentityOf(x).Some? && IdentityOf((a + b)[k]) == IdentityOf(x)
    requires i < |a + b| && Leads(s, a + b, i)
    ensures (a + [x] + b)[Shift(a, i)] == (a + b)[i] && Leads(s, a + [x] + b, Shift(a, i))
  {
    hide Eligible, IdentityOf;
    var few, many := a + b, a + [x] + b;
    if IdentityOf(few[i]).Some? {
      forall j | 0 <= j < |many| && j != Shift(a, i) && Eligible(s, many[j])
        && IdentityOf(many[j]) == IdentityOf(few[i])
        ensures Ahead(many, Shift(a, i), j)
      {
        if j == |a| {
          assert k != i ==> Ahead(few, i, k);
        } else {
          var was := if j < |a| then j else j - 1;
          assert many[j] == few[was];
        }
      }
    }
  }

  lemma LeaderWas(s: Snapshot, a: seq<Event>, x: Event, b: seq<Event>, k: nat, i: nat)
    requires k < |a + b| && Eligible(s, (a + b)[k]) && (a + b)[k].ts > x.ts
    requires IdentityOf(x).Some? && IdentityOf((a + b)[k]) == IdentityOf(x)
    requires i < |a + [x] + b| && Leads(s, a + [x] + b, i)
    ensures i != |a|
    ensures var was := if i < |a| then i else i - 1;
            (a + b)[was] == (a + [x] + b)[i] && Leads(s, a + b, was)
  {
    hide Eligible, IdentityOf;
    var few, many := a + b, a + [x] + b;
    assert many[Shift(a, k)] == few[k] && many[|a|] == x;
    var was := if i < |a| then i else i - 1;
    if i == |a| {
      assert false;
    }
    if IdentityOf(many[i]).Some? {
      forall j | 0 <= j < |few| && j != was && Eligible(s, few[j]) && IdentityOf(few[j]) == IdentityOf(few[was])
        ensures Ahead(few, was, j)
      {
        assert many[Shift(a, j)] == few[j];
        assert Ahead(many, i, Shift(a, j));
      }
    }
  }

  // ----- What a verdict means -----------------------------------------------------------

  /** Recent; about no tunnel or a current one since it was last updated; about no service or a
      required one; and if it tells of a source, then of a host source or a required service's. */
  predicate Counts(s: Snapshot, e: Event) {
    && s.now <= e.ts + s.recentSeconds
    && (e.tunnel == "" || (e.tunnel in s.tunnels && e.ts >= s.tunnels[e.tunnel]))
    && (e.service == "" || e.service in s.requiredServices)
    && (e.source == "" || (e.code != SourceUnavailable && e.code != SourceAvailable)
        || e.source == "proc_stat" || e.source == "proc_meminfo" || e.source == "filesystem:/"
        || exists name <- s.requiredServices :: exists i :: 0 <= i <= |e.source| && name <= e.source[i..])
  }

  /** What settles a failure. */
  function RecoveryOf(failure: Code): Option<Code> {
    match failure
    case ListenerDisappeared => Some(ListenerReturned)
    case SourceUnavailable => Some(SourceAvailable)
    case CollectionFailed => Some(CollectionRecovered)
    case CheckpointFailed => Some(CheckpointRecovered)
    case RetentionFailed => Some(RetentionRecovered)
    case EnvParseError => Some(EnvParseRecovered)
    case _ => None
  }

  /** What an event is about: its tunnel, else its service, else its source, else its path. */
  function NameOf(e: Event): string {
    if e.tunnel != "" then e.tunnel
    else if e.service != "" then e.service
    else if e.source != "" then e.source
    else e.path
  }

  function UnitOf(e: Event): string {
    if e.service == "" then "unknown" else e.service
  }

  /** Events that settle each other: failures and recoveries of a kind about one name, or changes of one
      unit's state. */
  datatype Topic = Trouble(failure: Code, recovery: Code, name: string) | StateOf(unit: string)

  predicate On(topic: Topic, e: Event) {
    match topic
    case Trouble(failure, recovery, name) => (e.code == failure || e.code == recovery) && NameOf(e) == name
    case StateOf(unit) => e.code == ServiceStateChanged && UnitOf(e) == unit
  }

  /** No event that counts on the topic is newer, or as new and listed before. */
  predicate Newest(s: Snapshot, events: seq<Event>, i: nat, topic: Topic)
    requires i < |events|
  {
    forall j :: 0 <= j < |events| && j != i && Counts(s, events[j]) && On(topic, events[j]) ==>
                  events[j].ts < events[i].ts || (events[j].ts == events[i].ts && i < j)
  }

  /** A metric measured exactly, since the event, shows that all is well. */
  predicate ShownWell(metrics: map<string, Metric>, name: string, e: Event) {
    name in metrics && metrics[name].exact && metrics[name].one && e.ts <= metrics[name].ts
  }

  /** The event is an incident on its own account. */
  predicate Incident(s: Snapshot, events: seq<Event>, i: nat)
    requires i < |events|
  {
    var e := events[i];
    Counts(s, e) &&
    match e.code
    case ServiceStateChanged =>
      e.grave && e.down && !ShownWell(s.serviceActive, e.service, e) && Newest(s, events, i, StateOf(UnitOf(e)))
    case PidReplaced => true
    case OtherCode(_) => e.grave
    case _ =>
      && RecoveryOf(e.code).Some? && e.code != EnvParseError
      && Newest(s, events, i, Trouble(e.code, RecoveryOf(e.code).value, NameOf(e)))
      && !(e.code == ListenerDisappeared && e.tunnel != "" && ShownWell(s.listenerOwned, e.tunnel, e))
  }

  /** A code is reported exactly when an event of that code is an incident: a failure that no recovery has
      settled and no metric refutes, never a recovery. An invalid environment is reported by
      itself. */
  predicate Means(s: Snapshot, events: seq<Event>, v: Verdict) {
    match v
    case ManagedEnvInvalid => s.invalidEnv
    case Standing(code) => exists i :: 0 <= i < |events| && events[i].code == code && Incident(s, events, i)
  }

  lemma CountsMean(s: Snapshot, e: Event)
    ensures Counts(s, e) <==> Eligible(s, e)
  {
    if e.source != "" && (exists required <- s.requiredServices :: Contains(e.source, required)) {
      var required :| required in s.requiredServices && Contains(e.source, required);
      var i :| 0 <= i <= |e.source| && required <= e.source[i..];
    }
    if e.source != "" {
      forall name | name in s.requiredServices && exists i :: 0 <= i <= |e.source| && name <= e.source[i..]
        ensures Contains(e.source, name)
      {
      }
    }
  }

  /** Events on the topic of a failure are those with its identity; likewise for a unit's state. */
  lemma TopicsMean(e: Event, x: Event)
    ensures RecoveryOf(e.code).Some? ==>
              (On(Trouble(e.code, RecoveryOf(e.code).value, NameOf(e)), x) <==> IdentityOf(x) == IdentityOf(e))
    ensures e.code == ServiceStateChanged ==> (On(StateOf(UnitOf(e)), x) <==> IdentityOf(x) == IdentityOf(e))
    ensures RecoveryOf(e.code).Some? || e.code == ServiceStateChanged ==> IdentityOf(e).Some?
  {
  }

  lemma NewestLeads(s: Snapshot, events: seq<Event>, i: nat, topic: Topic)
    requires i < |events| && Counts(s, events[i]) && IdentityOf(events[i]).Some?
    requires forall x :: On(topic, x) <==> IdentityOf(x) == IdentityOf(events[i])
    ensures Newest(s, events, i, topic) <==> Leads(s, events, i)
  {
    hide Counts, Eligible, On, IdentityOf;
    forall e: Event
      ensures Counts(s, e) <==> Eligible(s, e)
    {
      CountsMean(s, e);
    }
  }

  /** What one event reports, against what it is. */
  lemma IncidentReports(s: Snapshot, events: seq<Event>, i: nat)
    requires i < |events|
    ensures Incident(s, events, i) <==> Leads(s, events, i) && Report(s, events[i]) == Some(Standing(events[i].code))
  {
    var e := events[i];
    CountsMean(s, e);
    forall x: Event
      ensures RecoveryOf(e.code).Some? ==>
                (On(Trouble(e.code, RecoveryOf(e.code).value, NameOf(e)), x) <==> IdentityOf(x) == IdentityOf(e))
      ensures e.code == ServiceStateChanged ==> (On(StateOf(UnitOf(e)), x) <==> IdentityOf(x) == IdentityOf(e))
      ensures RecoveryOf(e.code).Some? || e.code == ServiceStateChanged ==> IdentityOf(e).Some?
    {
      TopicsMean(e, x);
    }
    hide Counts, Eligible, On, Newest, Leads;
    if Counts(s, e) && RecoveryOf(e.code).Some? {
      NewestLeads(s, events, i, Trouble(e.code, RecoveryOf(e.code).value, NameOf(e)));
    } else if Counts(s, e) && e.code == ServiceStateChanged {
      NewestLeads(s, events, i, StateOf(UnitOf(e)));
    } else {
      LeadsAlone(s, events, i);
    }
  }

  lemma LeadsAlone(s: Snapshot, events: seq<Event>, i: nat)
    requires i < |events|
    ensures Leads(s, events, i) ==> Eligible(s, events[i])
    ensures IdentityOf(events[i]).None? ==> (Leads(s, events, i) <==> Eligible(s, events[i]))
  {
  }

  lemma VerdictsMean(s: Snapshot, events: seq<Event>, v: Verdict)
    ensures Stands(s, events, v) <==> Means(s, events, v)
  {
    hide Leads, Incident;
    forall i | 0 <= i < |events|
      ensures Leads(s, events, i) && Report(s, events[i]) == Some(v) ==>
                if v.ManagedEnvInvalid? then s.invalidEnv else events[i].code == v.code && Incident(s, events, i)
      ensures v.Standing? && events[i].code == v.code && Incident(s, events, i) ==>
                Leads(s, events, i) && Report(s, events[i]) == Some(v)
    {
      IncidentReports(s, events, i);
    }
  }
}
