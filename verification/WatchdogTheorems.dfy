/** What holds of every history of commits: the shape of the row, the faithfulness of the
    event log, and what must have been observed before a service is stopped or started. */
module WatchdogTheorems {
  import opened Common
  import opened WatchdogProtocol

  // ----- Structure of every reachable row -----------------------------------------------

  predicate InOutage(v: Vitals) {
    v.health.Down? || v.health.Recovering?
  }

  predicate VitalsInOrder(v: Vitals) {
    && (v.outageStartedAt.Some? <==> InOutage(v))
    && (v.recoveryStartedAt.Some? <==> v.health == Recovering)
    && (v.recoveryReadyAt.Some? ==> v.health == Recovering)
    && (v.failureCount == 0 || v.successCount == 0)
  }

  predicate ServiceInOrder(s: Service) {
    && !(s.stoppedByWatchdog && s.stoppedByMaintenance)
    && (s.stoppedByMaintenance ==> s.maintenance)
    && (s.pendingAction.Some? <==> s.pendingActionAt.Some?)
  }

  /** What a durable intent says about the row it was written in. */
  predicate IntentGrounded(h: Health, s: Service) {
    match s.pendingAction
    case None => true
    case Some(StopWatchdog) => h == Down
    case Some(StopMaintenance) => s.maintenance
    case Some(StartWatchdog) => h == Healthy && s.stoppedByWatchdog
    case Some(StartMaintenance) => h == Healthy && Owned(s)
    case Some(StartOperator) => h == Healthy && s.stoppedByWatchdog
  }

  predicate Structural(r: Row) {
    VitalsInOrder(r.vitals) && ServiceInOrder(r.service) && IntentGrounded(r.vitals.health, r.service)
  }

  lemma AdvanceKeepsOrder(v: Vitals, cfg: Config, reached: bool, now: int, jitter: int)
    requires VitalsInOrder(v)
    ensures VitalsInOrder(Advance(v, cfg, reached, now, jitter))
  {
  }

  lemma CheckKeepsServiceInOrder(r: Row, c: Cause, now: int)
    requires c.Check? && Guard(r, c, now) && Structural(r)
    ensures ServiceInOrder(CheckedService(r, c, now))
    ensures IntentGrounded(CheckedVitals(r.vitals, c, now).health, CheckedService(r, c, now))
  {
  }

  lemma SettlingKeepsServiceInOrder(r: Row, c: Cause, now: int)
    requires c.Settle? && Guard(r, c, now) && Structural(r)
    ensures ServiceInOrder(ServiceWritten(r, c, now)) && ServiceWritten(r, c, now).pendingAction.None?
  {
  }

  lemma CommitKeepsStructure(r: Row, c: Cause, now: int)
    requires Guard(r, c, now) && Structural(r)
    ensures Structural(Written(r, c, now))
  {
    if c.Check? {
      AdvanceKeepsOrder(r.vitals, c.cfg, c.reached, now, c.jitter);
      CheckKeepsServiceInOrder(r, c, now);
    } else if c.Settle? {
      SettlingKeepsServiceInOrder(r, c, now);
    }
  }

  /** Every row any history can leave, under every kind of commit, is well formed. */
  lemma {:induction false} ReachableRowIsStructural(t: Trace)
    requires Legal(t)
    ensures Structural(RowAfter(t))
  {
    if t.Then? {
      ReachableRowIsStructural(t.past);
      CommitKeepsStructure(RowAfter(t.past), t.cause, t.now);
    }
  }

  // ----- The log replays the health machine ---------------------------------------------

  predicate Edge(from: Health, to: Health) {
    match from
    case Unknown => to.Healthy? || to.Degraded? || to.Down?
    case Healthy => to.Degraded? || to.Down?
    case Degraded => to.Healthy? || to.Down?
    case Down => to.Recovering?
    case Recovering => to.Healthy? || to.Down?
  }

  /** Replays the health events of a log from `Unknown`; `None` if one does not start where
      the one before ended, is mislabelled, or takes an edge the machine does not have. */
  function Replay(log: seq<Event>): Option<Health> {
    if log == [] then Some(Unknown)
    else
      var e := log[|log| - 1];
      var at := Replay(log[..|log| - 1]);
      if !e.code.Entered? then at
      else if && at.Some?
              && e.previous == Some(Shown(at.value))
              && e.next == Some(Shown(e.code.health))
              && Edge(at.value, e.code.health)
      then Some(e.code.health)
      else None
  }

  lemma ReplayOne(log: seq<Event>, e: Event)
    ensures Replay(log + [e]) ==
            if !e.code.Entered? then Replay(log)
            else if Replay(log).Some? && e.previous == Some(Shown(Replay(log).value))
                    && e.next == Some(Shown(e.code.health)) && Edge(Replay(log).value, e.code.health)
            then Some(e.code.health) else None
  {
    assert (log + [e])[..|log|] == log;
  }

  predicate Quiet(es: seq<Event>) {
    forall e <- es :: !e.code.Entered?
  }

  lemma {:induction false} ReplayQuiet(log: seq<Event>, es: seq<Event>)
    requires Quiet(es)
    ensures Replay(log + es) == Replay(log)
  {
    if es == [] {
      assert log + es == log;
    } else {
      var front := es[..|es| - 1];
      assert log + es == (log + front) + [es[|es| - 1]];
      ReplayOne(log + front, es[|es| - 1]);
      ReplayQuiet(log, front);
    }
  }

  lemma ReplayAdvance(log: seq<Event>, v: Vitals, a: Vitals, now: int)
    requires Replay(log) == Some(v.health)
    requires v.health == a.health || Edge(v.health, a.health) || (v.health == Down && a.health == Healthy)
    ensures Replay(log + AdvanceEvents(v, a, now)) == Some(a.health)
  {
    var es := AdvanceEvents(v, a, now);
    if v.health == a.health {
      assert log + es == log;
    } else if v.health == Down && a.health == Healthy {
      assert log + es == (log + [es[0]]) + [es[1]];
      ReplayOne(log, es[0]);
      ReplayOne(log + [es[0]], es[1]);
    } else {
      ReplayOne(log, es[0]);
    }
  }

  lemma AdvanceTakesEdges(v: Vitals, cfg: Config, reached: bool, now: int, jitter: int)
    ensures var h := Advance(v, cfg, reached, now, jitter).health;
            v.health == h || Edge(v.health, h) || (v.health == Down && h == Healthy)
  {
  }

  lemma OnlyChecksMoveHealth(r: Row, c: Cause, now: int)
    requires Guard(r, c, now) && !c.Check?
    ensures Quiet(Emitted(r, c, now)) && Written(r, c, now).vitals.health == r.vitals.health
  {
    if c.Settle? {
      SettlingIsQuiet(r.vitals, r.service.pendingAction.value, c.how, now);
      hide SettledEvents, Settled;
    } else {
      hide SettledEvents, Settled;
    }
  }

  lemma SettlingIsQuiet(v: Vitals, a: Action, how: Ending, now: int)
    requires Fits(a, how)
    ensures Quiet(SettledEvents(v, a, how, now))
  {
  }

  lemma ReplayCheck(log: seq<Event>, r: Row, c: Cause, now: int)
    requires c.Check? && Guard(r, c, now) && Replay(log) == Some(r.vitals.health)
    ensures Replay(log + Emitted(r, c, now)) == Some(Written(r, c, now).vitals.health)
  {
    hide Written, Emitted, Guard, Advance, AdvanceEvents, BegunEvents, ObservedEvents, Replay, Edge, Quiet;
    CheckWrites(r, c, now);
    var a := CheckedVitals(r.vitals, c, now);
    var pre := BegunEvents(r, now) + ObservedEvents(r, c.seen, now);
    ReplayQuiet(log, pre);
    AdvanceTakesEdges(r.vitals, c.cfg, c.reached, now, c.jitter);
    ReplayAdvance(log + pre, r.vitals, a, now);
    assert log + Emitted(r, c, now) == (log + pre) + AdvanceEvents(r.vitals, a, now);
  }

  /** What a check's commit is made of. */
  lemma CheckWrites(r: Row, c: Cause, now: int)
    requires c.Check? && Guard(r, c, now)
    ensures Written(r, c, now).vitals == CheckedVitals(r.vitals, c, now)
    ensures Quiet(BegunEvents(r, now) + ObservedEvents(r, c.seen, now))
    ensures Emitted(r, c, now) == BegunEvents(r, now) + ObservedEvents(r, c.seen, now)
                                  + AdvanceEvents(r.vitals, CheckedVitals(r.vitals, c, now), now)
  {
    hide Advance, AdvanceEvents;
  }

  /** In every history, crashes and lost writes included, the persisted health events form
      one chain of allowed edges from unknown, and it ends at the persisted health. */
  lemma {:induction false} LogReplaysToRow(t: Trace)
    requires Legal(t)
    ensures Replay(LogAfter(t)) == Some(RowAfter(t).vitals.health)
  {
    if t.Then? {
      LogReplaysToRow(t.past);
      var r, log, c := RowAfter(t.past), LogAfter(t.past), t.cause;
      if c.Check? {
        ReplayCheck(log, r, c, t.now);
      } else {
        OnlyChecksMoveHealth(r, c, t.now);
        ReplayQuiet(log, Emitted(r, c, t.now));
      }
    }
  }

  // ----- Stops and starts balance -------------------------------------------------------

  function Tally(log: seq<Event>, code: Code): nat {
    if log == [] then 0
    else Tally(log[..|log| - 1], code) + if log[|log| - 1].code == code then 1 else 0
  }

  lemma {:induction false} TallyAppend(a: seq<Event>, b: seq<Event>, code: Code)
    ensures Tally(a + b, code) == Tally(a, code) + Tally(b, code)
  {
    if b == [] {
      assert a + b == a;
    } else {
      assert (a + b)[..|a + b| - 1] == a + b[..|b| - 1];
      TallyAppend(a, b[..|b| - 1], code);
    }
  }

  function Balance(log: seq<Event>): int {
    Tally(log, ProfileStopped) - Tally(log, ProfileStarted)
  }

  lemma BalanceAppend(a: seq<Event>, b: seq<Event>)
    ensures Balance(a + b) == Balance(a) + Balance(b)
  {
    TallyAppend(a, b, ProfileStopped);
    TallyAppend(a, b, ProfileStarted);
  }

  /** Events that neither stop nor start leave every prefix balance alone. */
  lemma {:induction false} NeutralBalance(es: seq<Event>)
    requires forall e <- es :: e.code != ProfileStopped && e.code != ProfileStarted
    ensures Balance(es) == 0
  {
    if es != [] {
      NeutralBalance(es[..|es| - 1]);
    }
  }

  /** What settling the intent `a` adds to the balance. */
  function Weight(a: Option<Action>, how: Ending): int {
    if a == Some(StopWatchdog) && (how.FoundInactive? || how.StoppedNow?) then 1
    else if a == Some(StartWatchdog) && (how.FoundActive? || how.StartedNow? || how.StartedRetried?) then -1
    else 0
  }

  lemma BalanceOfOne(e: Event)
    ensures Balance([e]) == if e.code == ProfileStopped then 1 else if e.code == ProfileStarted then -1 else 0
  {
    assert [e][..|[e]| - 1] == [];
    assert Tally([e], ProfileStopped) == if e.code == ProfileStopped then 1 else 0;
    assert Tally([e], ProfileStarted) == if e.code == ProfileStarted then 1 else 0;
  }

  /** Only a settled intent writes a stop or start event, always as the first of its commit. */
  lemma FirstEventWeighs(v: Vitals, a: Action, how: Ending, now: int)
    requires Fits(a, how) && |SettledEvents(v, a, how, now)| > 0
    ensures var es := SettledEvents(v, a, how, now);
            && |es| <= 2
            && Weight(Some(a), how) ==
               (if es[0].code == ProfileStopped then 1 else if es[0].code == ProfileStarted then -1 else 0)
            && (|es| == 2 ==> es[1].code == ActionError)
  {
  }

  lemma SettledBalance(v: Vitals, a: Action, how: Ending, now: int, k: nat)
    requires Fits(a, how) && 0 < k <= |SettledEvents(v, a, how, now)|
    ensures Balance(SettledEvents(v, a, how, now)[..k]) == Weight(Some(a), how)
  {
    var es := SettledEvents(v, a, how, now);
    FirstEventWeighs(v, a, how, now);
    BalanceOfOne(es[0]);
    if k == 1 {
      assert es[..1] == [es[0]];
    } else {
      assert es[..2] == [es[0]] + [es[1]];
      BalanceAppend([es[0]], [es[1]]);
      BalanceOfOne(es[1]);
    }
  }

  lemma OtherCommitsAreNeutral(r: Row, c: Cause, now: int, k: nat)
    requires Guard(r, c, now) && !c.Settle? && k <= |Emitted(r, c, now)|
    ensures Balance(Emitted(r, c, now)[..k]) == 0
  {
    NeutralBalance(Emitted(r, c, now)[..k]);
  }

  lemma EmittedBalance(r: Row, c: Cause, now: int, k: nat)
    requires Guard(r, c, now) && k <= |Emitted(r, c, now)|
    ensures Balance(Emitted(r, c, now)[..k]) == if k > 0 && c.Settle? then Weight(r.service.pendingAction, c.how) else 0
  {
    if !c.Settle? {
      OtherCommitsAreNeutral(r, c, now, k);
    } else if k > 0 {
      SettledBalance(r.vitals, r.service.pendingAction.value, c.how, now, k);
    }
  }

  /** Ownership by the watchdog appears only with a recorded stop, and a recorded start ends it. */
  lemma OwnershipFollowsWeight(r: Row, c: Cause, now: int)
    requires Guard(r, c, now) && Structural(r)
    ensures var w := if c.Settle? && |Emitted(r, c, now)| > 0 then Weight(r.service.pendingAction, c.how) else 0;
            && (Written(r, c, now).service.stoppedByWatchdog ==> w == 1 || (w == 0 && r.service.stoppedByWatchdog))
            && (w == -1 ==> r.service.stoppedByWatchdog)
  {
  }

  lemma {:induction false} OwnershipIsBacked(t: Trace)
    requires Legal(t)
    ensures Balance(LogAfter(t)) >= if RowAfter(t).service.stoppedByWatchdog then 1 else 0
  {
    if t.Then? {
      OwnershipIsBacked(t.past);
      ReachableRowIsStructural(t.past);
      var r := RowAfter(t.past);
      var es := Emitted(r, t.cause, t.now);
      OwnershipFollowsWeight(r, t.cause, t.now);
      BalanceAppend(LogAfter(t.past), es);
      EmittedBalance(r, t.cause, t.now, |es|);
      assert es[..|es|] == es;
    }
  }

  lemma NonNegativeBalance(log: seq<Event>)
    ensures Balance(log) >= 0 <==> Tally(log, ProfileStarted) <= Tally(log, ProfileStopped)
  {
  }

  /** At no point of the persisted log have automatic starts outnumbered automatic stops. */
  lemma {:induction false} StartsNeverOutnumberStops(t: Trace, k: nat)
    requires Legal(t) && k <= |LogAfter(t)|
    ensures Tally(LogAfter(t)[..k], ProfileStarted) <= Tally(LogAfter(t)[..k], ProfileStopped)
  {
    hide *;
    if t.Start? {
      NothingTallied(t, k);
    } else {
      LogGrows(t);
      var log := LogAfter(t.past);
      if k <= |log| {
        assert LogAfter(t)[..k] == log[..k];
        StartsNeverOutnumberStops(t.past, k);
      } else {
        PrefixIsBalanced(t, k - |log|);
        NonNegativeBalance(LogAfter(t)[..k]);
      }
    }
  }

  lemma NothingTallied(t: Trace, k: nat)
    requires t.Start? && Legal(t) && k <= |LogAfter(t)|
    ensures Tally(LogAfter(t)[..k], ProfileStarted) == Tally(LogAfter(t)[..k], ProfileStopped) == 0
  {
  }

  lemma LogGrows(t: Trace)
    requires Legal(t) && t.Then?
    ensures Legal(t.past) && |LogAfter(t.past)| <= |LogAfter(t)|
    ensures LogAfter(t)[..|LogAfter(t.past)|] == LogAfter(t.past)
  {
    hide Emitted, Written;
  }

  /** The balance after the first `k` events of the newest commit. */
  lemma PrefixIsBalanced(t: Trace, k: nat)
    requires Legal(t) && t.Then? && 0 < k <= |LogAfter(t)| - |LogAfter(t.past)|
    ensures Balance(LogAfter(t)[..|LogAfter(t.past)| + k]) >= 0
  {
    hide Written, Emitted, Balance, Structural;
    var log, r := LogAfter(t.past), RowAfter(t.past);
    var es := Emitted(r, t.cause, t.now);
    OwnershipIsBacked(t.past);
    ReachableRowIsStructural(t.past);
    OwnershipFollowsWeight(r, t.cause, t.now);
    assert LogAfter(t)[..|log| + k] == log + es[..k];
    BalanceAppend(log, es[..k]);
    EmittedBalance(r, t.cause, t.now, k);
  }

  function Pending(t: Trace): Option<Action>
    requires Legal(t)
  {
    RowAfter(t).service.pendingAction
  }

  // ----- Ownership is verified ----------------------------------------------------------

  /** How a reconciliation leaves the row, given what systemd attested: after a stop intent an
      ownership flag is set exactly when inactivity was verified, and it is the intending owner's;
      after a start intent verified activity ends all ownership. In every other case the unit is
      handed over to the operator. */
  predicate Resolved(before: Row, after: Row, seen: Evidence) {
    var a, b, s := before.service.pendingAction, before.service, after.service;
    && a.Some? && s.pendingAction.None? && s.pendingActionAt.None?
    && (seen.query.None? ==> s.manualOverride && SameOwner(b, s))
    && (seen.query.Some? && IsStop(a.value) ==>
          && (Owned(s) <==> seen.last == Some(false))
          && (s.stoppedByWatchdog <==> seen.last == Some(false) && a.value == StopWatchdog)
          && (s.stoppedByMaintenance <==> seen.last == Some(false) && a.value == StopMaintenance)
          && (seen.last != Some(false) ==> s.manualOverride))
    && (seen.query.Some? && !IsStop(a.value) ==>
          if seen.last == Some(true) then !Owned(s) && !s.manualOverride else s.manualOverride && SameOwner(b, s))
  }

  predicate SameOwner(b: Service, s: Service) {
    s.stoppedByWatchdog == b.stoppedByWatchdog && s.stoppedByMaintenance == b.stoppedByMaintenance
  }

  /** Every reconciliation of every history resolves its intent by what systemd attested. */
  lemma ReconciliationResolves(t: Trace)
    requires Legal(t) && t.Then? && t.cause.Settle? && ByReconciliation(t.cause.how)
    ensures Resolved(RowAfter(t.past), RowAfter(t), t.cause.evidence)
  {
    SettlementResolves(RowAfter(t.past), t.cause, t.now);
  }

  lemma SettlementResolves(r: Row, c: Cause, now: int)
    requires c.Settle? && Guard(r, c, now) && ByReconciliation(c.how)
    ensures Resolved(r, Written(r, c, now), c.evidence)
  {
  }

  /** Whichever way a stop or start ends that is recorded as done, systemd attested it. */
  lemma RecordedMeansAttested(t: Trace)
    requires Legal(t) && t.Then? && t.cause.Settle?
    ensures t.cause.how.StoppedNow? || t.cause.how.FoundInactive? ==> t.cause.evidence.last == Some(false)
    ensures t.cause.how.StartedNow? || t.cause.how.StartedRetried? || t.cause.how.FoundActive?
              || t.cause.how.Compensated? ==>
              t.cause.evidence.last == Some(true)
  {
  }

  /** Ownership has not changed hands since `p`. */
  predicate SameOwnerSince(p: Trace, t: Trace)
    requires Legal(t) && Extends(p, t)
  {
    p == t || (SameOwnerSince(p, t.past) && SameOwner(RowAfter(t.past).service, RowAfter(t).service))
  }

  /** The only commit that takes ownership settles that owner's stop intent on verified inactivity. */
  lemma OwnershipIsTaken(r: Row, c: Cause, now: int)
    requires Guard(r, c, now)
    ensures var s := Written(r, c, now).service;
            SameOwner(r.service, s) || !Owned(s) ||
            (&& c.Settle? && c.evidence.last == Some(false)
             && (s.stoppedByWatchdog <==> r.service.pendingAction == Some(StopWatchdog))
             && (s.stoppedByMaintenance <==> r.service.pendingAction == Some(StopMaintenance)))
  {
  }

  /** In every history an ownership flag goes back to a commit that settled that owner's stop intent
      after systemd had attested the unit inactive, and has been set ever since. */
  lemma {:induction false} OwnershipIsVerified(t: Trace) returns (p: Trace)
    requires Legal(t) && Owned(RowAfter(t).service)
    ensures Extends(p, t) && p.Then? && Legal(p) && SameOwnerSince(p, t)
    ensures p.cause.Settle? && p.cause.evidence.last == Some(false)
    ensures Pending(p.past) == Some(if RowAfter(t).service.stoppedByWatchdog then StopWatchdog else StopMaintenance)
  {
    hide Written;
    OwnershipIsTaken(RowAfter(t.past), t.cause, t.now);
    if SameOwner(RowAfter(t.past).service, RowAfter(t).service) {
      p := OwnershipIsVerified(t.past);
    } else {
      p := t;
    }
  }

  // ----- Stop safety --------------------------------------------------------------------

  /** Committed unreachable checks since the last committed success; probe errors and
      everything that is not a check are skipped. */
  function UnreachableRun(t: Trace): nat {
    match t
    case Start => 0
    case Then(past, cause, _) =>
      if !cause.Check? then UnreachableRun(past) else if cause.reached then 0 else UnreachableRun(past) + 1
  }

  function SuccessRun(t: Trace): nat {
    match t
    case Start => 0
    case Then(past, cause, _) =>
      if !cause.Check? then SuccessRun(past) else if cause.reached then SuccessRun(past) + 1 else 0
  }

  /** The newest commit of `t` wrote the intent `a`. */
  predicate WritesIntent(t: Trace, a: Action) {
    t.Then? && Legal(t) && Pending(t) == Some(a) && Pending(t.past) != Some(a)
  }

  lemma {:induction false} CountersAreObserved(t: Trace)
    requires Legal(t)
    ensures RowAfter(t).vitals.failureCount <= UnreachableRun(t)
    ensures RowAfter(t).vitals.successCount <= SuccessRun(t)
  {
    if t.Then? {
      CountersAreObserved(t.past);
    }
  }

  /** A commit that is not a check never writes one of the watchdog's own intents. */
  lemma OnlyChecksWriteIntents(r: Row, c: Cause, now: int)
    requires Guard(r, c, now) && !c.Check?
    ensures var a := Written(r, c, now).service.pendingAction;
            a == r.service.pendingAction || (a != Some(StopWatchdog) && a != Some(StartWatchdog))
  {
  }

  /** A stop intent follows at least as many consecutive unreachable checks as the threshold
      then in force, whatever the threshold was at each of them. */
  lemma StopIsEarned(t: Trace)
    requires WritesIntent(t, StopWatchdog)
    ensures t.cause.Check? && !t.cause.reached && t.cause.cfg.mode == Auto
    ensures UnreachableRun(t) >= t.cause.cfg.failureThreshold
    ensures RowAfter(t).vitals.health == Down
    ensures !RowAfter(t).service.maintenance && !RowAfter(t).service.manualOverride
  {
    if !t.cause.Check? {
      OnlyChecksWriteIntents(RowAfter(t.past), t.cause, t.now);
    }
    CountersAreObserved(t);
  }

  // ----- Recovery timing ----------------------------------------------------------------

  /** Every committed check after `p`, up to `t`, was a success. */
  predicate OnlySuccessesSince(p: Trace, t: Trace)
    requires Extends(p, t)
  {
    p == t || (OnlySuccessesSince(p, t.past) && (t.cause.Check? ==> t.cause.reached))
  }

  /** `p` ends with the check that met the success threshold and drew the jitter. */
  predicate MeetsThreshold(p: Trace) {
    && p.Then? && Legal(p) && p.cause.Check?
    && DrawsJitter(RowAfter(p.past).vitals, p.cause.cfg, p.cause.reached, p.now)
  }

  /** The moment a check makes a recovery due, if this check leaves it due at all. */
  lemma ReadyTime(v: Vitals, cfg: Config, reached: bool, now: int, jitter: int)
    requires VitalsInOrder(v)
    ensures var a := Advance(v, cfg, reached, now, jitter);
            a.recoveryReadyAt.Some? ==>
              reached && a.recoveryReadyAt == if DrawsJitter(v, cfg, reached, now)
                                              then Some(now + cfg.holdSeconds + jitter) else v.recoveryReadyAt
  {
  }

  lemma {:induction false} ReadyTimeHasAnOrigin(t: Trace) returns (p: Trace)
    requires Legal(t) && RowAfter(t).vitals.recoveryReadyAt.Some?
    ensures Extends(p, t) && MeetsThreshold(p) && OnlySuccessesSince(p, t)
    ensures RowAfter(t).vitals.recoveryReadyAt == Some(p.now + p.cause.cfg.holdSeconds + p.cause.jitter)
  {
    ReachableRowIsStructural(t.past);
    var c := t.cause;
    if c.Check? {
      ReadyTime(RowAfter(t.past).vitals, c.cfg, c.reached, t.now, c.jitter);
    }
    if MeetsThreshold(t) {
      p := t;
    } else {
      p := ReadyTimeHasAnOrigin(t.past);
    }
  }

  /** The newest commit of `t` brought the profile back from an outage. */
  predicate CompletesRecovery(t: Trace) {
    && t.Then? && Legal(t) && RowAfter(t).vitals.health == Healthy
    && InOutage(RowAfter(t.past).vitals)
  }

  lemma CompletionIsDue(v: Vitals, cfg: Config, reached: bool, now: int, jitter: int)
    requires VitalsInOrder(v) && InOutage(v)
    requires Advance(v, cfg, reached, now, jitter).health == Healthy
    ensures reached
    ensures if DrawsJitter(v, cfg, reached, now) then now >= now + cfg.holdSeconds + jitter
            else v.recoveryReadyAt.Some? && now >= v.recoveryReadyAt.value
  {
  }

  /** A recovery completes only after the success threshold was met by consecutive committed
      successes, only the hold plus the drawn jitter later, and with no failure in between. */
  lemma RecoveryWaits(t: Trace) returns (p: Trace)
    requires CompletesRecovery(t)
    ensures Extends(p, t) && MeetsThreshold(p) && OnlySuccessesSince(p, t)
    ensures SuccessRun(p) >= p.cause.cfg.successThreshold
    ensures 0 <= p.cause.jitter <= p.cause.cfg.jitterMax
    ensures t.now >= p.now + p.cause.cfg.holdSeconds + p.cause.jitter
  {
    ReachableRowIsStructural(t.past);
    if !t.cause.Check? {
      OnlyChecksMoveHealth(RowAfter(t.past), t.cause, t.now);
    }
    CompletionIsDue(RowAfter(t.past).vitals, t.cause.cfg, t.cause.reached, t.now, t.cause.jitter);
    if MeetsThreshold(t) {
      p := t;
    } else {
      p := ReadyTimeHasAnOrigin(t.past);
    }
    CountersAreObserved(p.past);
  }

  /** A run of automatic checks with no operator command, crashes allowed. */
  predicate Unattended(t: Trace) {
    match t
    case Start => true
    case Then(past, cause, _) =>
      Unattended(past) && match cause {
        case ProbeFault(_) => true
        case Check(cfg, _, _, _) => cfg.mode == Auto
        case Echo => true
        case Settle(_, _) => true
        case _ => false
      }
  }

  /** Unattended, there is no maintenance, and undisputed idle ownership lasts no longer than the outage. */
  predicate OwnedOnlyInOutage(r: Row) {
    && !r.service.maintenance
    && (r.service.stoppedByWatchdog && !r.service.manualOverride && r.service.pendingAction.None?
        ==> InOutage(r.vitals))
  }

  lemma CheckKeepsOwnership(r: Row, c: Cause, now: int)
    requires Guard(r, c, now) && c.Check? && c.cfg.mode == Auto && Structural(r) && OwnedOnlyInOutage(r)
    ensures OwnedOnlyInOutage(Written(r, c, now))
  {
  }

  lemma SettlingKeepsOwnership(r: Row, c: Cause, now: int)
    requires Guard(r, c, now) && c.Settle? && Structural(r)
    requires r.service.pendingAction.value.StopWatchdog? || r.service.pendingAction.value.StartWatchdog?
    requires !r.service.maintenance
    ensures OwnedOnlyInOutage(Written(r, c, now))
  {
  }

  lemma {:induction false} UnattendedOwnership(t: Trace)
    requires Legal(t) && Unattended(t)
    ensures OwnedOnlyInOutage(RowAfter(t))
    ensures Pending(t).None? || Pending(t) == Some(StopWatchdog) || Pending(t) == Some(StartWatchdog)
  {
    if t.Then? {
      UnattendedOwnership(t.past);
      ReachableRowIsStructural(t.past);
      ReachableRowIsStructural(t);
      var r := RowAfter(t.past);
      if t.cause.Check? {
        CheckKeepsOwnership(r, t.cause, t.now);
      } else if t.cause.Settle? {
        SettlingKeepsOwnership(r, t.cause, t.now);
      }
    }
  }

  /** Unattended, the watchdog restarts a service only by completing a recovery. */
  lemma StartIsEarned(t: Trace) returns (p: Trace)
    requires WritesIntent(t, StartWatchdog) && Unattended(t)
    ensures CompletesRecovery(t)
    ensures Extends(p, t) && MeetsThreshold(p) && OnlySuccessesSince(p, t)
    ensures SuccessRun(p) >= p.cause.cfg.successThreshold
    ensures 0 <= p.cause.jitter <= p.cause.cfg.jitterMax
    ensures t.now >= p.now + p.cause.cfg.holdSeconds + p.cause.jitter
  {
    UnattendedOwnership(t.past);
    ReachableRowIsStructural(t);
    if !t.cause.Check? {
      OnlyChecksWriteIntents(RowAfter(t.past), t.cause, t.now);
    }
    p := RecoveryWaits(t);
  }
}
