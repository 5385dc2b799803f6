/** The watchdog as it runs: fields mutated step by step, interleaved with transactions that
    may fail and systemctl calls that may fail, and with a crash possible at each of them.
    Every transaction it writes is shown to be the one the protocol prescribes. */
module WatchdogEngine {
  import opened Common
  import opened WatchdogProtocol
  import opened WatchdogTheorems
  import opened WatchdogMeaning

  datatype Probe = Reached | NotReached | Faulty(category: ErrorCategory)
  datatype Owner = ByWatchdog | ByMaintenance | ByOperator

  /** A systemctl order and the intent the durable row held when it was issued. */
  datatype Order = Order(start: bool, intent: Option<Action>)

  datatype Operation =
    | ReconcileProfile
    | CheckProfile(cfg: Config, probe: Probe, draw: int)
    | Maintain(command: Command)
    | StartOwned(checkInterval: nat)
    | RearmProfile

  function StopFor(owner: Owner): Action {
    if owner == ByWatchdog then StopWatchdog else StopMaintenance
  }

  function StartFor(owner: Owner): Action {
    match owner
    case ByWatchdog => StartWatchdog
    case ByMaintenance => StartMaintenance
    case ByOperator => StartOperator
  }

  /** Stops are issued under a stop intent; starts under a start intent, or to compensate a
      stop whose result could not be recorded. */
  predicate Announced(o: Order) {
    o.intent.Some? && (o.start || IsStop(o.intent.value))
  }

  /** The orders given while a left-over intent is settled: one, if the unit is not as intended. */
  function OrdersOf(a: Action, query: Option<bool>): seq<Order> {
    if query == Some(IsStop(a)) then [Order(!IsStop(a), Some(a))] else []
  }

  /** The orders of a stop that ended this way: none for an inactive unit, and a start after the stop if
      that had to be undone. */
  function StopOrders(a: Action, how: Ending): seq<Order> {
    if how == AlreadyInactive then []
    else [Order(false, Some(a))] + if how == Compensated then [Order(true, Some(a))] else []
  }

  lemma OneCommit(t: Trace, c: Cause, now: int)
    requires Legal(t) && Guard(RowAfter(t), c, now)
    ensures var u := Then(t, c, now);
            && Legal(u) && RowAfter(u) == Written(RowAfter(t), c, now)
            && LogAfter(u) == LogAfter(t) + Emitted(RowAfter(t), c, now)
  {
  }

  /** `u` is `t` with one more commit, the settling of an intent. */
  predicate JustSettled(t: Trace, u: Trace, now: int) {
    u.Then? && u.past == t && u.cause.Settle? && u.now == now
  }

  /** Since `t`, exactly one check with this probe result was committed; if it called for an
      action, that action was then settled. */
  ghost predicate Checked(t: Trace, u: Trace, cfg: Config, reached: bool, draw: int, now: int) {
    exists seen :: var c := Check(cfg, reached, seen, draw);
      || u == Then(t, c, now)
      || (u.Then? && u.cause.Echo? && JustSettled(Then(t, c, now), u.past, now))
  }

  /** Like `Checked`, after at most one settling. */
  ghost predicate Recorded(t: Trace, u: Trace, cfg: Config, probe: Probe, draw: int, now: int) {
    exists s: Trace :: (s == t || JustSettled(t, s, now)) &&
      if probe.Faulty? then u == Then(s, ProbeFault(probe.category), now)
      else Checked(s, u, cfg, probe.Reached?, draw, now)
  }

  lemma NotItsOwnPast(t: Trace, c: Cause, now: int)
    ensures !JustSettled(Then(t, c, now), t, now)
  {
    if t.Then? && t.past.Then? {
      assert t.past.past < t;
    }
  }

  /** An operator's intent and its settling touch nothing but the service columns, and a stop
      for maintenance leaves maintenance on. */
  lemma AfterOperatorAction(t: Trace, c: Cause, u: Trace, now: int)
    requires c.EnterStopIntent? || c.ExitStartIntent?
    requires Legal(t) && Legal(u) && JustSettled(Then(t, c, now), u, now)
    ensures RowAfter(u).vitals == RowAfter(t).vitals && RowAfter(u).probing == RowAfter(t).probing
    ensures c.EnterStopIntent? ==> RowAfter(u).service.maintenance
  {
  }

  class Watchdog {
    // The profile's state in memory, and the events waiting to be saved with it.
    var vitals: Vitals
    var service: Service
    var probing: Probing
    var events: seq<Event>

    // What survives a crash.
    var row: Row
    var log: seq<Event>

    // The history of commits, the systemctl orders issued, systemd's answer to the state query of
    // the action under way, the last thing it attested, and whether any outside call has failed.
    ghost var trace: Trace
    ghost var orders: seq<Order>
    ghost var queried: Option<bool>
    ghost var attested: Option<bool>
    ghost var failed: bool

    ghost function Seen(): Evidence
      reads this`queried, this`attested
    {
      Evidence(queried, attested)
    }

    /** The state in memory, as the row it would be saved as. */
    function Current(): Row
      reads this`vitals, this`service, this`probing
    {
      Row(vitals, service, probing)
    }

    ghost predicate Valid()
      reads this`row, this`log, this`trace, this`orders
    {
      && Legal(trace) && row == RowAfter(trace) && log == LogAfter(trace)
      && forall o <- orders :: Announced(o)
    }

    /** Memory and disk agree and no event is waiting. */
    ghost predicate Clean()
      reads this
    {
      Current() == row && events == []
    }

    constructor ()
      ensures Valid() && row == FRESH_ROW && log == [] && trace == Start && orders == [] && !failed
    {
      vitals, service, probing, events := FRESH_ROW.vitals, FRESH_ROW.service, FRESH_ROW.probing, [];
      row, log, trace, orders, queried, attested, failed := FRESH_ROW, [], Start, [], None, None, false;
    }

    // ----- Storage and systemd ----------------------------------------------------------

    /** get_state: a new operation starts from the durable row. */
    method Load()
      requires Valid()
      modifies this`vitals, this`service, this`probing, this`events
      ensures Clean()
    {
      vitals, service, probing, events := row.vitals, row.service, row.probing, [];
    }

    /** One all-or-nothing transaction. It may be refused, and the process may die before or
        after it took effect. */
    method Persist(ghost cause: Cause, now: int) returns (r: Reply<()>)
      requires Valid() && Guard(row, cause, now)
      requires Current() == Written(row, cause, now) && events == Emitted(row, cause, now)
      modifies this`row, this`log, this`trace, this`events, this`failed
      ensures Valid() && (failed <==> old(failed) || !r.Returned?)
      ensures r.Returned? ==> trace == Then(old(trace), cause, now) && Clean()
      ensures r.Raised? ==> unchanged(this`row, this`log, this`trace, this`events)
      ensures r.Crashed? ==> trace == old(trace) || trace == Then(old(trace), cause, now)
    {
      hide Legal, RowAfter, LogAfter, Announced, Guard, Written, Emitted;
      OneCommit(trace, cause, now);
      var committed: bool := *;
      r := *;
      failed := failed || !r.Returned?;
      if r.Returned? || (r.Crashed? && committed) {
        row := Current();
        log := log + events;
        trace := Then(trace, cause, now);
        events := [];
      }
    }

    method IsActive() returns (r: Reply<bool>)
      modifies this`attested, this`failed
      ensures attested == if r.Returned? then Some(r.value) else None
      ensures failed <==> old(failed) || !r.Returned?
    {
      r := *;
      failed := failed || !r.Returned?;
      attested := if r.Returned? then Some(r.value) else None;
    }

    /** systemctl stop: true only if the unit was then seen inactive. */
    method StopUnit() returns (r: Reply<bool>)
      requires Valid() && row.service.pendingAction.Some? && IsStop(row.service.pendingAction.value)
      modifies this`attested, this`orders, this`failed
      ensures Valid() && orders == old(orders) + [Order(false, row.service.pendingAction)]
      ensures failed <==> old(failed) || !r.Returned?
      ensures r == Returned(true) <==> attested == Some(false)
    {
      orders := orders + [Order(false, row.service.pendingAction)];
      attested := None;
      var exitCode: Reply<int> := *;
      if exitCode.IsFailure() {
        failed := true;
        return exitCode.PropagateFailure();
      }
      if exitCode.value != 0 {
        return Returned(false);
      }
      var active :- IsActive();
      r := Returned(!active);
    }

    /** systemctl start: true only if the unit was then seen active. */
    method StartUnit() returns (r: Reply<bool>)
      requires Valid() && row.service.pendingAction.Some?
      modifies this`attested, this`orders, this`failed
      ensures Valid() && orders == old(orders) + [Order(true, row.service.pendingAction)]
      ensures failed <==> old(failed) || !r.Returned?
      ensures r == Returned(true) <==> attested == Some(true)
    {
      orders := orders + [Order(true, row.service.pendingAction)];
      attested := None;
      var exitCode: Reply<int> := *;
      if exitCode.IsFailure() {
        failed := true;
        return exitCode.PropagateFailure();
      }
      if exitCode.value != 0 {
        return Returned(false);
      }
      r := IsActive();
    }

    // ----- Durable service actions ------------------------------------------------------

    /** Memory holds exactly the result of ending the pending action this way. */
    ghost predicate Ended(how: Ending, now: int)
      reads this
    {
      && row.service.pendingAction.Some? && Fits(row.service.pendingAction.value, how) && Attests(Seen(), how)
      && vitals == row.vitals && probing == row.probing
      && service == Settled(row.service, row.service.pendingAction.value, how, now)
      && events == SettledEvents(row.vitals, row.service.pendingAction.value, how, now)
    }

    method SaveEnding(ghost how: Ending, now: int) returns (r: Reply<()>)
      requires Valid() && Ended(how, now)
      modifies this`row, this`log, this`trace, this`events, this`failed
      ensures Valid() && (trace == old(trace) || JustSettled(old(trace), trace, now))
      ensures failed <==> old(failed) || !r.Returned?
      ensures r.Returned? ==> trace == Then(old(trace), Settle(how, Seen()), now)
      ensures r.Returned? ==> Clean() && row.service.pendingAction.None?
      ensures r.Raised? ==> unchanged(this`row, this`log, this`trace, this`events)
    {
      hide Legal, RowAfter, LogAfter, Announced;
      r := Persist(Settle(how, Seen()), now);
    }

    method FailPending(now: int, error: ErrorCategory)
      modifies this`service, this`events
      ensures service == old(service).(manualOverride := true, pendingAction := None, pendingActionAt := None)
      ensures events == old(events) + [Note(vitals, ActionError, now).(result := FailedResult, error := error)]
    {
      service := service.(manualOverride := true);
      service := service.(pendingAction := None, pendingActionAt := None);
      events := events + [Note(vitals, ActionError, now).(result := FailedResult, error := error)];
    }

    method FinalizePendingStop(action: Action, now: int)
      requires IsStop(action) && events == []
      modifies this`service, this`events
      ensures service == old(service).(
                stoppedByWatchdog := action == StopWatchdog, stoppedByMaintenance := action == StopMaintenance,
                lastServiceActive := Some(false), maintenance := old(service).maintenance || action == StopMaintenance)
      ensures events == SettledEvents(vitals, action, FoundInactive, now)
    {
      service := service.(stoppedByWatchdog := action == StopWatchdog);
      service := service.(stoppedByMaintenance := action == StopMaintenance);
      service := service.(lastServiceActive := Some(false));
      if action == StopWatchdog {
        events := events + [Note(vitals, ProfileStopped, now).(result := IntentReconciled)];
        return;
      }
      service := service.(maintenance := true);
      events := events + [Note(vitals, MaintenanceEnabled, now).(
                            previous := Some(Shown(vitals.health)), next := Some(MaintenanceShown),
                            result := MaintenanceStopped)];
    }

    method FinalizePendingStart(action: Action, now: int)
      requires !IsStop(action) && events == []
      modifies this`service, this`events
      ensures service == old(service).(
                stoppedByWatchdog := false, stoppedByMaintenance := false, manualOverride := false,
                lastServiceActive := Some(true), maintenance := old(service).maintenance && action != StartMaintenance)
      ensures events == SettledEvents(vitals, action, FoundActive, now)
    {
      service := service.(stoppedByWatchdog := false, stoppedByMaintenance := false, manualOverride := false);
      service := service.(lastServiceActive := Some(true));
      if action == StartWatchdog {
        events := events + [Note(vitals, ProfileStarted, now).(result := IntentReconciled)];
        return;
      }
      if action == StartMaintenance {
        service := service.(maintenance := false);
        events := events + [Note(vitals, MaintenanceDisabled, now).(
                              previous := Some(MaintenanceShown), next := Some(Shown(vitals.health)),
                              result := MaintenanceExitStart)];
        return;
      }
      events := events + [Note(vitals, ModeChangeStart, now).(result := OperatorStarted)];
    }

    /** Settles a pending action found in the row, after a crash or a lost write. Whenever it
        returns, the row holds no intent, and the verdict written is what systemd attested. */
    method ReconcilePending(now: int) returns (r: Reply<()>)
      requires Valid() && Clean()
      modifies this
      ensures Valid() && (trace == old(trace) || JustSettled(old(trace), trace, now))
      ensures (old(failed) ==> failed) && (r.Returned? || failed)
      ensures r.Returned? ==> Clean() && row.service.pendingAction.None?
      ensures r.Returned? && old(row).service.pendingAction.None? ==> trace == old(trace)
      ensures r.Returned? && old(row).service.pendingAction.Some? ==>
                && JustSettled(old(trace), trace, now)
                && ByReconciliation(trace.cause.how) && trace.cause.evidence == Seen()
                && Resolved(old(row), row, Seen())
                && orders == old(orders) + OrdersOf(old(row).service.pendingAction.value, queried)
    {
      hide Legal, RowAfter, LogAfter, Resolved;
      if service.pendingAction.None? {
        return Returned(());
      }
      r := ReconcileAction(service.pendingAction.value, now);
      if r.Returned? {
        Settlement(old(trace), trace);
      }
    }

    method ReconcileAction(action: Action, now: int) returns (r: Reply<()>)
      requires Valid() && Clean() && row.service.pendingAction == Some(action)
      modifies this
      ensures Valid() && (trace == old(trace) || JustSettled(old(trace), trace, now))
      ensures (old(failed) ==> failed) && (r.Returned? || failed)
      ensures r.Returned? ==> Clean() && row.service.pendingAction.None?
      ensures r.Returned? ==>
                && JustSettled(old(trace), trace, now)
                && ByReconciliation(trace.cause.how) && trace.cause.evidence == Seen()
                && orders == old(orders) + OrdersOf(action, queried)
    {
      hide Legal, RowAfter, LogAfter, Announced, JustSettled, OrdersOf, ByReconciliation, IsStop, Looked;
      var query := IsActive();
      queried := attested;
      if query.Crashed? {
        return Crashed;
      }
      if query.Raised? {
        r := ReconcileUnanswered(action, now);
        return;
      }
      LookAt(action, query.value, now);
      if IsStop(action) {
        r := ReconcileStop(action, query.value, now);
      } else {
        r := ReconcileStart(action, query.value, now);
      }
    }

    method LookAt(ghost action: Action, active: bool, now: int)
      requires Valid() && Clean() && row.service.pendingAction == Some(action) && queried == Some(active)
      modifies this`service
      ensures Looked(action, active, now)
    {
      hide Legal, RowAfter, LogAfter, Announced;
      service := service.(lastServiceActive := Some(active));
      service := service.(lastServiceCheckAt := Some(now));
    }

    /** The state of the unit could not be told. */
    method ReconcileUnanswered(ghost action: Action, now: int) returns (r: Reply<()>)
      requires Valid() && Clean() && row.service.pendingAction == Some(action) && Seen() == Evidence(None, None)
      modifies this`service, this`row, this`log, this`trace, this`events, this`failed
      ensures Valid() && (trace == old(trace) || JustSettled(old(trace), trace, now))
      ensures (old(failed) ==> failed) && (r.Returned? || failed)
      ensures r.Returned? ==> Clean() && row.service.pendingAction.None?
      ensures r.Returned? ==>
                && JustSettled(old(trace), trace, now)
                && ByReconciliation(trace.cause.how) && trace.cause.evidence == Seen()
      ensures OrdersOf(action, queried) == []
    {
      hide Legal, RowAfter, LogAfter, Announced;
      service := service.(lastServiceCheckAt := Some(now));
      FailPending(now, ServiceStateUnavailable);
      r := SaveEnding(QueryFailed, now);
    }

    lemma Settlement(before: Trace, after: Trace)
      requires Legal(after) && after.Then? && after.past == before && after.cause.Settle?
                 && ByReconciliation(after.cause.how)
      ensures Legal(before) && Resolved(RowAfter(before), RowAfter(after), after.cause.evidence)
    {
      ReconciliationResolves(after);
    }

    /** The rest of a reconciliation: only the last look differs from the row. */
    ghost predicate Looked(action: Action, active: bool, now: int)
      reads this
    {
      && Valid() && events == []
      && row.service.pendingAction == Some(action) && queried == Some(active)
      && Current() == row.(service := row.service.(lastServiceActive := Some(active), lastServiceCheckAt := Some(now)))
    }

    method ReconcileStop(action: Action, wasActive: bool, now: int) returns (r: Reply<()>)
      requires Looked(action, wasActive, now) && attested == Some(wasActive) && IsStop(action)
      modifies this
      ensures Valid() && (trace == old(trace) || JustSettled(old(trace), trace, now))
      ensures (old(failed) ==> failed) && (r.Returned? || failed)
      ensures r.Returned? ==> Clean() && row.service.pendingAction.None?
      ensures r.Returned? ==>
                && JustSettled(old(trace), trace, now)
                && ByReconciliation(trace.cause.how) && trace.cause.evidence == Seen()
      ensures r.Returned? ==> queried == old(queried) && orders == old(orders) + OrdersOf(action, queried)
    {
      hide Legal, RowAfter, LogAfter, Announced;
      var active := wasActive;
      if active {
        var stopped := StopUnit();
        if stopped.Crashed? {
          return Crashed;
        }
        active := stopped != Returned(true);
      }
      if active {
        service := service.(stoppedByWatchdog := false, stoppedByMaintenance := false);
        service := service.(lastServiceActive := Some(true));
        FailPending(now, CannotStop);
        r := SaveEnding(StillActive, now);
        return;
      }
      r := ReconcileStopped(action, wasActive, now);
    }

    method ReconcileStopped(action: Action, ghost wasActive: bool, now: int) returns (r: Reply<()>)
      requires Looked(action, wasActive, now) && attested == Some(false) && IsStop(action)
      modifies this`service, this`row, this`log, this`trace, this`events, this`failed
      ensures Valid() && (trace == old(trace) || JustSettled(old(trace), trace, now))
      ensures (old(failed) ==> failed) && (r.Returned? || failed)
      ensures r.Returned? ==> Clean() && row.service.pendingAction.None?
      ensures r.Returned? ==> trace == Then(old(trace), Settle(FoundInactive, Seen()), now)
    {
      hide Legal, RowAfter, LogAfter, Announced;
      FinalizePendingStop(action, now);
      service := service.(pendingAction := None, pendingActionAt := None);
      r := SaveEnding(FoundInactive, now);
    }

    method ReconcileStart(action: Action, wasActive: bool, now: int) returns (r: Reply<()>)
      requires Looked(action, wasActive, now) && attested == Some(wasActive) && !IsStop(action)
      modifies this
      ensures Valid() && (trace == old(trace) || JustSettled(old(trace), trace, now))
      ensures (old(failed) ==> failed) && (r.Returned? || failed)
      ensures r.Returned? ==> Clean() && row.service.pendingAction.None?
      ensures r.Returned? ==>
                && JustSettled(old(trace), trace, now)
                && ByReconciliation(trace.cause.how) && trace.cause.evidence == Seen()
      ensures r.Returned? ==> queried == old(queried) && orders == old(orders) + OrdersOf(action, queried)
    {
      hide Legal, RowAfter, LogAfter, Announced;
      var active := wasActive;
      if !active {
        var started := StartUnit();
        if started.Crashed? {
          return Crashed;
        }
        active := started == Returned(true);
      }
      if !active {
        r := ReconcileUnstarted(action, now);
        return;
      }
      r := ReconcileStarted(action, wasActive, now);
    }

    method ReconcileUnstarted(ghost action: Action, now: int) returns (r: Reply<()>)
      requires Looked(action, false, now) && attested != Some(true) && !IsStop(action)
      modifies this`service, this`row, this`log, this`trace, this`events, this`failed
      ensures Valid() && (trace == old(trace) || JustSettled(old(trace), trace, now))
      ensures (old(failed) ==> failed) && (r.Returned? || failed)
      ensures r.Returned? ==> Clean() && row.service.pendingAction.None?
      ensures r.Returned? ==> trace == Then(old(trace), Settle(StillInactive, Seen()), now)
    {
      hide Legal, RowAfter, LogAfter, Announced;
      service := service.(lastServiceActive := Some(false));
      FailPending(now, CannotStart);
      r := SaveEnding(StillInactive, now);
    }

    method ReconcileStarted(action: Action, ghost wasActive: bool, now: int) returns (r: Reply<()>)
      requires Looked(action, wasActive, now) && attested == Some(true) && !IsStop(action)
      modifies this`service, this`row, this`log, this`trace, this`events, this`failed
      ensures Valid() && (trace == old(trace) || JustSettled(old(trace), trace, now))
      ensures (old(failed) ==> failed) && (r.Returned? || failed)
      ensures r.Returned? ==> Clean() && row.service.pendingAction.None?
      ensures r.Returned? ==> trace == Then(old(trace), Settle(FoundActive, Seen()), now)
    {
      hide Legal, RowAfter, LogAfter, Announced;
      FinalizePendingStart(action, now);
      service := service.(pendingAction := None, pendingActionAt := None);
      r := SaveEnding(FoundActive, now);
    }

    /** Saving the state in memory with this intent added is the commit `cause` prescribes. */
    ghost predicate ReadyToAnnounce(action: Action, cause: Cause, now: int)
      reads this
    {
      && Valid() && Guard(row, cause, now) && events == Emitted(row, cause, now)
      && Written(row, cause, now) ==
         Current().(service := service.(pendingAction := Some(action), pendingActionAt := Some(now)))
    }

    /** The intent is on disk, memory agrees with it, and nothing has been done yet. */
    ghost predicate Underway(action: Action)
      reads this
    {
      Valid() && Clean() && row.service.pendingAction == Some(action)
    }

    /** Write the intent, stop the unit, record the result; undo the stop if it cannot be recorded. */
    method Stop(owner: Owner, now: int, ghost cause: Cause) returns (r: Reply<bool>)
      requires owner != ByOperator && ReadyToAnnounce(StopFor(owner), cause, now)
      modifies this
      ensures Valid() && Extends(old(trace), trace)
      ensures (old(failed) ==> failed) && (r.Returned? || failed)
      ensures r.Returned? ==> Clean() && row.service.pendingAction.None?
      ensures r.Returned? ==>
                && JustSettled(Then(old(trace), cause, now), trace, now) && !ByReconciliation(trace.cause.how)
                && (r.value <==> trace.cause.how == StoppedNow) && trace.cause.evidence == Seen()
      ensures r.Returned? ==> orders == old(orders) + StopOrders(StopFor(owner), trace.cause.how)
      ensures r == Returned(true) ==> attested == Some(false)
    {
      service := service.(pendingAction := Some(StopFor(owner)), pendingActionAt := Some(now));
      var _ :- Persist(cause, now);
      r := StopAnnounced(owner, now);
    }

    method StopAnnounced(owner: Owner, now: int) returns (r: Reply<bool>)
      requires owner != ByOperator && Underway(StopFor(owner))
      modifies this
      ensures Valid() && (trace == old(trace) || JustSettled(old(trace), trace, now))
      ensures (old(failed) ==> failed) && (r.Returned? || failed)
      ensures r.Returned? ==> Clean() && row.service.pendingAction.None?
      ensures r.Returned? ==>
                && JustSettled(old(trace), trace, now) && !ByReconciliation(trace.cause.how)
                && (r.value <==> trace.cause.how == StoppedNow) && trace.cause.evidence == Seen()
      ensures r.Returned? ==> orders == old(orders) + StopOrders(StopFor(owner), trace.cause.how)
      ensures r == Returned(true) ==> attested == Some(false)
    {
      hide Legal, RowAfter, LogAfter, Announced;
      var active :- IsActive();
      queried := attested;
      LookAt(StopFor(owner), active, now);
      if !active {
        var _ :- AbandonStop(StopFor(owner), Note(vitals, ManualOverride, now).(result := ManualStop),
                             AlreadyInactive, now);
        return Returned(false);
      }
      r := StopActive(owner, now);
    }

    method StopActive(owner: Owner, now: int) returns (r: Reply<bool>)
      requires owner != ByOperator && Looked(StopFor(owner), true, now)
      modifies this
      ensures Valid() && (trace == old(trace) || JustSettled(old(trace), trace, now))
      ensures (old(failed) ==> failed) && (r.Returned? || failed)
      ensures r.Returned? ==> Clean() && row.service.pendingAction.None?
      ensures r.Returned? ==>
                && JustSettled(old(trace), trace, now) && !ByReconciliation(trace.cause.how)
                && (r.value <==> trace.cause.how == StoppedNow) && trace.cause.evidence == Seen()
      ensures r.Returned? ==> orders == old(orders) + StopOrders(StopFor(owner), trace.cause.how)
      ensures r == Returned(true) ==> attested == Some(false)
    {
      hide Legal, RowAfter, LogAfter, Announced;
      var stopped := StopUnit();
      if stopped.Crashed? {
        return Crashed;
      }
      if stopped != Returned(true) {
        var _ :- AbandonStop(StopFor(owner),
                             Note(vitals, StopFailed, now).(result := FailedResult, error := CannotStop),
                             StopRefused, now);
        return Returned(false);
      }
      r := RecordStop(owner, now);
    }

    /** The unit was not stopped: drop the intent and hand the unit over to the operator. */
    method AbandonStop(ghost action: Action, note: Event, ghost how: Ending, now: int) returns (r: Reply<()>)
      requires IsStop(action) && (how == AlreadyInactive || how == StopRefused)
      requires Looked(action, how == StopRefused, now) && [note] == SettledEvents(row.vitals, action, how, now)
      requires Attests(Seen(), how)
      modifies this`service, this`row, this`log, this`trace, this`events, this`failed
      ensures Valid() && (trace == old(trace) || JustSettled(old(trace), trace, now))
      ensures (old(failed) ==> failed) && (r.Returned? || failed)
      ensures r.Returned? ==> trace == Then(old(trace), Settle(how, Seen()), now)
      ensures r.Returned? ==> Clean() && row.service.pendingAction.None?
    {
      hide Legal, RowAfter, LogAfter, Announced;
      service := service.(pendingAction := None, pendingActionAt := None);
      service := service.(manualOverride := true);
      events := events + [note];
      r := SaveEnding(how, now);
    }

    method NoteStopped(owner: Owner, now: int)
      requires owner != ByOperator && Looked(StopFor(owner), true, now) && attested == Some(false)
      modifies this`service, this`events
      ensures Ended(StoppedNow, now)
    {
      hide Legal, RowAfter, LogAfter, Announced;
      service := service.(stoppedByWatchdog := owner == ByWatchdog, stoppedByMaintenance := owner == ByMaintenance);
      service := service.(lastServiceActive := Some(false));
      service := service.(pendingAction := None, pendingActionAt := None);
      if owner == ByWatchdog {
        events := events + [Note(vitals, ProfileStopped, now).(result := StoppedResult)];
      }
    }

    method RecordStop(owner: Owner, now: int) returns (r: Reply<bool>)
      requires owner != ByOperator && Looked(StopFor(owner), true, now) && attested == Some(false)
      modifies this
      ensures Valid() && (trace == old(trace) || JustSettled(old(trace), trace, now))
      ensures (old(failed) ==> failed) && (r.Returned? || failed)
      ensures r.Returned? ==> Clean() && row.service.pendingAction.None?
      ensures r.Returned? ==>
                && JustSettled(old(trace), trace, now) && !ByReconciliation(trace.cause.how)
                && (r.value <==> trace.cause.how == StoppedNow) && trace.cause.evidence == Seen()
      ensures r.Returned? ==>
                orders == old(orders) + if r.value then [] else [Order(true, Some(StopFor(owner)))]
      ensures r.Returned? ==> (r.value || trace.cause.how == Compensated)
      ensures r == Returned(true) ==> attested == Some(false)
    {
      hide Legal, RowAfter, LogAfter, Announced;
      NoteStopped(owner, now);
      hide Attests, SettledEvents;
      var recorded := SaveEnding(StoppedNow, now);
      if recorded.Returned? {
        return Returned(true);
      }
      if recorded.Crashed? {
        return Crashed;
      }

      r := Compensate(StopFor(owner), now);
    }

    /** The unit was stopped but that could not be recorded: start it again and give up ownership. */
    method Compensate(ghost action: Action, now: int) returns (r: Reply<bool>)
      requires Valid() && IsStop(action) && row.service.pendingAction == Some(action)
      requires service == Settled(row.service, action, StoppedNow, now) && vitals == row.vitals
                 && probing == row.probing
      requires queried == Some(true) && failed
      modifies this
      ensures Valid() && (trace == old(trace) || JustSettled(old(trace), trace, now)) && r != Returned(true)
      ensures failed
      ensures r.Returned? ==> trace == Then(old(trace), Settle(Compensated, Seen()), now)
      ensures r.Returned? ==> Clean() && attested == Some(true)
      ensures r.Raised? ==> trace == old(trace) && row == old(row)
      ensures r.Returned? ==> orders == old(orders) + [Order(true, Some(action))]
      ensures r.Returned? ==> row.service.pendingAction.None?
    {
      hide Legal, RowAfter, LogAfter, Announced;
      var compensated := StartUnit();
      if compensated.Crashed? {
        return Crashed;
      }
      if compensated != Returned(true) {
        return Raised;
      }
      NoteCompensated(action, now);
      hide Attests, Settled, SettledEvents;
      var _ :- SaveEnding(Compensated, now);
      return Returned(false);
    }

    method NoteCompensated(ghost action: Action, now: int)
      requires IsStop(action) && row.service.pendingAction == Some(action) && Seen() == Evidence(Some(true), Some(true))
      requires service == Settled(row.service, action, StoppedNow, now) && vitals == row.vitals
                 && probing == row.probing
      modifies this`service, this`events
      ensures Ended(Compensated, now)
    {
      service := service.(stoppedByWatchdog := false, stoppedByMaintenance := false);
      service := service.(lastServiceActive := Some(true));
      service := service.(pendingAction := None, pendingActionAt := None);
      service := service.(manualOverride := true);
      events := [];
      events := events + [Note(vitals, ActionError, now).(result := CompensatedResult, error := PersistenceFailed)];
    }

    /** Write the intent, start the unit, record the result, trying the record twice. */
    method StartService(owner: Owner, now: int, ghost cause: Cause) returns (r: Reply<bool>)
      requires ReadyToAnnounce(StartFor(owner), cause, now)
      modifies this
      ensures Valid() && Extends(old(trace), trace)
      ensures (old(failed) ==> failed) && (r.Returned? || failed)
      ensures r.Returned? ==> Clean() && row.service.pendingAction.None?
      ensures r.Returned? ==>
                && JustSettled(Then(old(trace), cause, now), trace, now) && !ByReconciliation(trace.cause.how)
                && (r.value <==> trace.cause.how != StartRefused) && trace.cause.evidence == Seen()
      ensures r.Returned? ==> orders == old(orders) + OrdersOf(StartFor(owner), queried)
      ensures r.Returned? ==> (r.value <==> attested == Some(true))
    {
      service := service.(pendingAction := Some(StartFor(owner)), pendingActionAt := Some(now));
      var _ :- Persist(cause, now);
      r := StartAnnounced(owner, now);
    }

    method StartAnnounced(owner: Owner, now: int) returns (r: Reply<bool>)
      requires Underway(StartFor(owner))
      modifies this
      ensures Valid() && (trace == old(trace) || JustSettled(old(trace), trace, now))
      ensures (old(failed) ==> failed) && (r.Returned? || failed)
      ensures r.Returned? ==> Clean() && row.service.pendingAction.None?
      ensures r.Returned? ==>
                && JustSettled(old(trace), trace, now) && !ByReconciliation(trace.cause.how)
                && (r.value <==> trace.cause.how != StartRefused) && trace.cause.evidence == Seen()
      ensures r.Returned? ==> orders == old(orders) + OrdersOf(StartFor(owner), queried)
      ensures r.Returned? ==> (r.value <==> attested == Some(true))
    {
      hide Legal, RowAfter, LogAfter, Attests, Settled, SettledEvents, Fits;
      var active :- IsActive();
      ghost var seen := active;
      queried := attested;
      LookAt(StartFor(owner), active, now);
      if !active {
        var started := StartUnit();
        if started.Crashed? {
          return Crashed;
        }
        active := started == Returned(true);
      }
      assert Looked(StartFor(owner), seen, now);
      if !active {
        var _ :- RefuseStart(StartFor(owner), now);
        return Returned(false);
      }
      r := RecordStart(owner, seen, now);
    }

    /** The unit was not started: drop the intent and hand the unit over to the operator. */
    method RefuseStart(ghost action: Action, now: int) returns (r: Reply<()>)
      requires Looked(action, false, now) && !IsStop(action) && attested != Some(true)
      modifies this`service, this`row, this`log, this`trace, this`events, this`failed
      ensures Valid() && (trace == old(trace) || JustSettled(old(trace), trace, now))
      ensures (old(failed) ==> failed) && (r.Returned? || failed)
      ensures r.Returned? ==> trace == Then(old(trace), Settle(StartRefused, Seen()), now)
      ensures r.Returned? ==> Clean() && row.service.pendingAction.None?
    {
      hide Legal, RowAfter, LogAfter, Announced;
      service := service.(pendingAction := None, pendingActionAt := None);
      service := service.(manualOverride := true);
      events := events + [Note(vitals, StartFailed, now).(result := FailedResult, error := CannotStart)];
      r := SaveEnding(StartRefused, now);
    }

    method NoteStarted(owner: Owner, ghost active: bool, now: int)
      requires Looked(StartFor(owner), active, now) && attested == Some(true)
      modifies this`service, this`events
      ensures Ended(StartedNow, now)
    {
      hide Legal, RowAfter, LogAfter, Announced;
      service := service.(stoppedByWatchdog := false, stoppedByMaintenance := false);
      service := service.(lastServiceActive := Some(true));
      service := service.(manualOverride := false);
      service := service.(pendingAction := None, pendingActionAt := None);
      if owner == ByWatchdog {
        events := events + [Note(vitals, ProfileStarted, now).(result := StartedResult)];
      } else if owner == ByOperator {
        events := events + [Note(vitals, ModeChangeStart, now).(result := OperatorStarted)];
      }
    }

    method RecordStart(owner: Owner, ghost active: bool, now: int) returns (r: Reply<bool>)
      requires Looked(StartFor(owner), active, now) && attested == Some(true)
      modifies this`service, this`row, this`log, this`trace, this`events, this`failed
      ensures Valid() && (trace == old(trace) || JustSettled(old(trace), trace, now))
      ensures (old(failed) ==> failed) && (r.Returned? || failed)
      ensures r.Returned? ==> Clean() && row.service.pendingAction.None? && r.value
      ensures r.Returned? ==> JustSettled(old(trace), trace, now)
      ensures r.Returned? ==> !ByReconciliation(trace.cause.how) && trace.cause.how != StartRefused
      ensures r.Returned? ==> trace.cause.evidence == Seen() && attested == Some(true)
    {
      hide Legal, RowAfter, LogAfter, Announced;
      NoteStarted(owner, active, now);
      hide Attests, Settled, SettledEvents;
      var recorded := SaveEnding(StartedNow, now);
      if recorded.Crashed? {
        return Crashed;
      }
      if recorded.Raised? {
        var _ :- RecordStartAgain(now);
      }
      return Returned(true);
    }

    method RecordStartAgain(now: int) returns (r: Reply<()>)
      requires Valid() && Ended(StartedNow, now)
      modifies this`row, this`log, this`trace, this`events, this`failed
      ensures Valid() && (trace == old(trace) || JustSettled(old(trace), trace, now))
      ensures (old(failed) ==> failed) && (r.Returned? || failed)
      ensures r.Returned? ==> trace == Then(old(trace), Settle(StartedRetried, Seen()), now)
      ensures r.Returned? ==> Clean()
      ensures r.Returned? ==> row.service.pendingAction.None?
    {
      hide Legal, RowAfter, LogAfter, Announced;
      events := events + [Note(vitals, ActionError, now).(result := IntentReconciled, error := PersistenceFailed)];
      r := SaveEnding(StartedRetried, now);
    }

    // ----- One check --------------------------------------------------------------------

    /** The look is over and the probe not yet counted. */
    ghost predicate CheckBegun(c: Cause, now: int)
      reads this
    {
      && Valid() && c.Check? && MayCheck(row, c.cfg, c.seen, now)
      && vitals == row.vitals && service == Observed(row.service, c.seen, now)
      && probing == ProbingWritten(row, c, now)
      && events == BegunEvents(row, now) + ObservedEvents(row, c.seen, now)
    }

    /** The probe is counted; only the action it may call for is missing. */
    ghost predicate CheckCounted(c: Cause, now: int)
      reads this
    {
      && Valid() && c.Check? && Guard(row, c, now)
      && vitals == CheckedVitals(row.vitals, c, now) && service == Observed(row.service, c.seen, now)
      && probing == ProbingWritten(row, c, now)
      && events == Emitted(row, c, now)
    }

    /** Either the whole check is in memory, ready to be saved, or an action saved and settled it. */
    ghost predicate CheckDone(before: Trace, c: Cause, now: int)
      reads this
    {
      && Valid() && c.Check? && service.pendingAction.None?
      && (|| (trace == before && Guard(row, c, now) && Current() == Written(row, c, now)
              && events == Emitted(row, c, now))
          || (JustSettled(Then(before, c, now), trace, now) && Clean()))
    }

    method Transition(next: Health, now: int, outage: Option<int>)
      modifies this`vitals, this`events
      ensures vitals == if old(vitals).health == next then old(vitals)
                        else old(vitals).(health := next, lastTransitionAt := Some(now))
      ensures events == if old(vitals).health == next then old(events)
                        else old(events) + [TransitionNote(old(vitals), old(vitals).health, next, now, outage)]
    {
      var previous := vitals.health;
      if previous == next {
        return;
      }
      vitals := vitals.(health := next, lastTransitionAt := Some(now));
      events := events + [TransitionNote(vitals, previous, next, now, outage)];
    }

    /** Compares ownership with the real unit, at most once per reconciliation interval. The
        pending action that the code would settle here first was settled when the check began. */
    method ReconcileService(now: int) returns (r: Reply<Option<bool>>)
      requires vitals == row.vitals && service == row.service && service.pendingAction.None?
      modifies this`service, this`events, this`attested, this`failed
      ensures failed <==> old(failed) || !r.Returned?
      ensures r.Returned? ==> (r.value.Some? <==> LookDue(row.service, now))
      ensures r.Returned? ==> service == Observed(row.service, r.value, now)
      ensures r.Returned? ==> events == old(events) + ObservedEvents(row, r.value, now)
    {
      hide Meddled;
      if service.lastServiceCheckAt.Some? && now - service.lastServiceCheckAt.value < SERVICE_RECONCILIATION_INTERVAL {
        return Returned(None);
      }
      var active :- IsActive();
      CompareOwnership(active, now);
      return Returned(Some(active));
    }

    method CompareOwnership(active: bool, now: int)
      requires vitals == row.vitals && service == row.service
      modifies this`service, this`events
      ensures service == Observed(row.service, Some(active), now)
      ensures events == old(events) + ObservedEvents(row, Some(active), now)
    {
      assert service.lastServiceActive.Some? && !service.lastServiceActive.value ==>
        service.lastServiceActive == Some(false);
      var owned := service.stoppedByWatchdog || service.stoppedByMaintenance;
      if active && owned {
        service := service.(stoppedByWatchdog := false, stoppedByMaintenance := false);
        if !service.manualOverride {
          events := events + [Note(vitals, ManualOverride, now).(result := ManualStart)];
        }
        service := service.(manualOverride := true);
      } else if !active && !owned && (service.lastServiceActive == Some(true) || service.lastServiceActive.None?) {
        if !service.manualOverride {
          events := events + [Note(vitals, ManualOverride, now).(result := ManualStop)];
        }
        service := service.(manualOverride := true);
      }
      service := service.(lastServiceActive := Some(active), lastServiceCheckAt := Some(now));
    }

    method StopIfOwnedTransition(cfg: Config, now: int, ghost c: Cause) returns (r: Reply<()>)
      requires CheckCounted(c, now) && c.cfg == cfg && !c.reached
      requires row.vitals.health != Recovering && vitals.failureCount >= cfg.failureThreshold
      requires row.vitals.health != Down || !service.stoppedByWatchdog
      modifies this
      ensures Valid() && Extends(old(trace), trace)
      ensures (old(failed) ==> failed) && (r.Returned? || failed)
      ensures r.Returned? ==> CheckDone(old(trace), c, now)
    {
      hide Legal, RowAfter, LogAfter, Announced;
      if cfg.mode != Auto || service.maintenance || service.manualOverride {
        return Returned(());
      }
      var _ :- Stop(ByWatchdog, now, c);
      return Returned(());
    }

    method StartAfterRecovery(cfg: Config, now: int, ghost c: Cause) returns (r: Reply<()>)
      requires CheckCounted(c, now) && c.cfg == cfg && c.reached
      requires vitals.health == Healthy && row.vitals.health != Unknown && row.vitals.health != Degraded
      modifies this
      ensures Valid() && Extends(old(trace), trace)
      ensures (old(failed) ==> failed) && (r.Returned? || failed)
      ensures r.Returned? ==> CheckDone(old(trace), c, now)
    {
      hide Legal, RowAfter, LogAfter, Announced;
      if cfg.mode != Auto || service.maintenance || service.manualOverride || !service.stoppedByWatchdog {
        return Returned(());
      }
      var _ :- StartService(ByWatchdog, now, c);
      return Returned(());
    }

    /** The hold is over: close the outage and, if the watchdog stopped the service, start it. */
    method CompleteRecovery(cfg: Config, now: int, ghost c: Cause, ghost counted: Vitals) returns (r: Reply<()>)
      requires Valid() && c.Check? && c.cfg == cfg && c.reached && Guard(row, c, now)
      requires counted == CountedSuccess(row.vitals, cfg, now) && counted.health == Recovering
      requires counted.successCount >= cfg.successThreshold
      requires vitals == if counted.recoveryReadyAt.Some? then counted
                         else counted.(recoveryJitter := c.jitter,
                                       recoveryReadyAt := Some(now + cfg.holdSeconds + c.jitter))
      requires now >= vitals.recoveryReadyAt.value
      requires service == Observed(row.service, c.seen, now) && probing == ProbingWritten(row, c, now)
      requires events ==
               BegunEvents(row, now) + ObservedEvents(row, c.seen, now) + AdvanceEvents(row.vitals, counted, now)
      modifies this
      ensures Valid() && Extends(old(trace), trace)
      ensures (old(failed) ==> failed) && (r.Returned? || failed)
      ensures r.Returned? ==> CheckDone(old(trace), c, now)
    {
      hide Legal, RowAfter, LogAfter, Announced;
      var duration := None;
      if vitals.outageStartedAt.Some? {
        duration := Some(Max(0, now - vitals.outageStartedAt.value));
      }
      Transition(Healthy, now, duration);
      vitals := vitals.(outageStartedAt := None, recoveryStartedAt := None, recoveryReadyAt := None,
                        recoveryJitter := 0);
      assert vitals == CheckedVitals(row.vitals, c, now);
      assert events == Emitted(row, c, now);
      r := StartAfterRecovery(cfg, now, c);
    }

    method SuccessfulCheck(cfg: Config, draw: int, now: int, ghost c: Cause) returns (r: Reply<()>)
      requires CheckBegun(c, now) && c.cfg == cfg && c.reached && c.jitter == draw
      modifies this
      ensures Valid() && Extends(old(trace), trace)
      ensures (old(failed) ==> failed) && (r.Returned? || failed || draw < 0 || cfg.jitterMax < draw)
      ensures r.Returned? ==> CheckDone(old(trace), c, now)
    {
      hide Legal, RowAfter, LogAfter, Announced;
      vitals := vitals.(failureCount := 0);
      if vitals.health == Unknown || vitals.health == Degraded {
        vitals := vitals.(successCount := Min(vitals.successCount + 1, cfg.successThreshold));
        Transition(Healthy, now, None);
        return Returned(());
      }
      if vitals.health == Healthy {
        vitals := vitals.(successCount := Min(vitals.successCount + 1, cfg.successThreshold));
        r := StartAfterRecovery(cfg, now, c);
        return;
      }
      if vitals.health == Down {
        vitals := vitals.(successCount := 1, recoveryStartedAt := Some(now), recoveryReadyAt := None,
                          recoveryJitter := 0);
        Transition(Recovering, now, None);
      } else {
        vitals := vitals.(successCount := Min(vitals.successCount + 1, cfg.successThreshold));
      }
      r := Recover(cfg, draw, now, c);
    }

    /** The end of a successful check of a recovering profile. */
    method Recover(cfg: Config, draw: int, now: int, ghost c: Cause) returns (r: Reply<()>)
      requires Valid() && c.Check? && c.cfg == cfg && c.reached && c.jitter == draw && MayCheck(row, cfg, c.seen, now)
      requires vitals == CountedSuccess(row.vitals, cfg, now) && vitals.health == Recovering
      requires service == Observed(row.service, c.seen, now) && probing == ProbingWritten(row, c, now)
      requires events ==
               BegunEvents(row, now) + ObservedEvents(row, c.seen, now) + AdvanceEvents(row.vitals, vitals, now)
      modifies this
      ensures Valid() && Extends(old(trace), trace)
      ensures (old(failed) ==> failed) && (r.Returned? || failed || draw < 0 || cfg.jitterMax < draw)
      ensures r.Returned? ==> CheckDone(old(trace), c, now)
    {
      hide Legal, RowAfter, LogAfter, Announced;
      ghost var counted := vitals;
      if vitals.successCount < cfg.successThreshold {
        return Returned(());
      }
      if vitals.recoveryReadyAt.None? {
        if draw < 0 || draw > cfg.jitterMax {
          return Raised;
        }
        vitals := vitals.(recoveryJitter := draw);
        vitals := vitals.(recoveryReadyAt := Some(now + cfg.holdSeconds + draw));
      }
      if now >= vitals.recoveryReadyAt.value {
        r := CompleteRecovery(cfg, now, c, counted);
        return;
      }
      return Returned(());
    }

    method FailedCheck(cfg: Config, now: int, ghost c: Cause) returns (r: Reply<()>)
      requires CheckBegun(c, now) && c.cfg == cfg && !c.reached
      modifies this
      ensures Valid() && Extends(old(trace), trace)
      ensures (old(failed) ==> failed) && (r.Returned? || failed)
      ensures r.Returned? ==> CheckDone(old(trace), c, now)
    {
      hide Legal, RowAfter, LogAfter, Announced;
      vitals := vitals.(successCount := 0);
      vitals := vitals.(failureCount := Min(vitals.failureCount + 1, cfg.failureThreshold));
      vitals := vitals.(recoveryStartedAt := None, recoveryReadyAt := None, recoveryJitter := 0);
      if vitals.health == Recovering {
        Transition(Down, now, None);
        return Returned(());
      }
      if vitals.failureCount >= cfg.failureThreshold {
        r := ThresholdMet(cfg, now, c);
        return;
      }
      if vitals.health == Unknown || vitals.health == Healthy {
        Transition(Degraded, now, None);
      }
      return Returned(());
    }

    /** The end of a failed check that meets the failure threshold. */
    method ThresholdMet(cfg: Config, now: int, ghost c: Cause) returns (r: Reply<()>)
      requires Valid() && c.Check? && c.cfg == cfg && !c.reached && MayCheck(row, cfg, c.seen, now)
      requires vitals == CountedFailure(row.vitals, cfg) && vitals.health != Recovering
      requires vitals.failureCount >= cfg.failureThreshold
      requires service == Observed(row.service, c.seen, now) && probing == ProbingWritten(row, c, now)
      requires events == BegunEvents(row, now) + ObservedEvents(row, c.seen, now)
      modifies this
      ensures Valid() && Extends(old(trace), trace)
      ensures (old(failed) ==> failed) && (r.Returned? || failed)
      ensures r.Returned? ==> CheckDone(old(trace), c, now)
    {
      hide Legal, RowAfter, LogAfter, Announced;
      var transitioned := vitals.health != Down;
      if vitals.outageStartedAt.None? {
        vitals := vitals.(outageStartedAt := Some(now));
      }
      Transition(Down, now, None);
      if transitioned || (cfg.mode == Auto && !service.stoppedByWatchdog) {
        r := StopIfOwnedTransition(cfg, now, c);
        return;
      }
      return Returned(());
    }

    // ----- Operations -------------------------------------------------------------------

    method ReconcileRow(now: int) returns (r: Reply<()>)
      requires Valid()
      modifies this
      ensures Valid() && Extends(old(trace), trace)
      ensures (old(failed) ==> failed) && (r.Returned? || failed)
      ensures r.Returned? ==> row.service.pendingAction.None?
    {
      Load();
      if service.pendingAction.Some? {
        r := ReconcilePending(now);
        return;
      }
      return Returned(());
    }

    /** One probe result. When it returns, that result has been committed exactly once, after
        any pending action was settled. */
    method Process(cfg: Config, probe: Probe, draw: int, now: int) returns (r: Reply<()>)
      requires Valid()
      modifies this
      ensures Valid() && Extends(old(trace), trace)
      ensures old(failed) ==> failed
      ensures r.Returned? || failed || (probe == Reached && (draw < 0 || cfg.jitterMax < draw))
      ensures r.Returned? ==> row.service.pendingAction.None?
      ensures r.Returned? && cfg.mode != Disabled ==> Recorded(old(trace), trace, cfg, probe, draw, now)
      ensures r.Returned? && cfg.mode == Disabled ==> trace == old(trace) || JustSettled(old(trace), trace, now)
    {
      hide Legal, RowAfter, LogAfter, Announced;
      Load();
      if service.pendingAction.Some? {
        var _ :- ReconcilePending(now);
      }
      ghost var settled := trace;
      if cfg.mode == Disabled {
        return Returned(());
      }
      if probe.Faulty? {
        r := RecordFault(probe.category, now);
      } else {
        r := RecordProbe(cfg, probe == Reached, draw, now);
      }
      ExtendsTransitive(old(trace), settled, trace);
    }

    method RecordFault(category: ErrorCategory, now: int) returns (r: Reply<()>)
      requires Valid() && Clean() && row.service.pendingAction.None?
      modifies this
      ensures Valid() && Extends(old(trace), trace)
      ensures (old(failed) ==> failed) && (r.Returned? || failed)
      ensures r.Returned? ==> trace == Then(old(trace), ProbeFault(category), now) && row.service.pendingAction.None?
    {
      probing := probing.(lastCheckAt := Some(now));
      if probing.checkStatus != ProbeError || probing.lastProbeError != category {
        events := events + [Note(vitals, ProbeFailed, now).(error := category)];
      }
      probing := probing.(checkStatus := ProbeError, lastProbeError := category);
      r := Persist(ProbeFault(category), now);
    }

    method NoteProbe(reached: bool, now: int)
      requires vitals == row.vitals && probing == row.probing
      modifies this`probing, this`events
      ensures probing == Probing(Some(now), if reached then Success else Unreachable, NoError)
      ensures events == old(events) + BegunEvents(row, now)
    {
      probing := probing.(lastCheckAt := Some(now));
      if probing.checkStatus == ProbeError {
        events := events + [Note(vitals, ProbeRecovered, now).(error := probing.lastProbeError)];
      }
      probing := probing.(checkStatus := if reached then Success else Unreachable, lastProbeError := NoError);
    }

    method RecordProbe(cfg: Config, reached: bool, draw: int, now: int) returns (r: Reply<()>)
      requires Valid() && Clean() && row.service.pendingAction.None? && cfg.mode != Disabled
      modifies this
      ensures Valid() && Extends(old(trace), trace)
      ensures old(failed) ==> failed
      ensures r.Returned? || failed || (reached && (draw < 0 || cfg.jitterMax < draw))
      ensures r.Returned? ==> row.service.pendingAction.None? && Checked(old(trace), trace, cfg, reached, draw, now)
    {
      hide Legal, RowAfter, LogAfter, Written, Emitted, Meddled, LookDue, Announced;
      NoteProbe(reached, now);
      var seen: Option<bool> := None;
      if cfg.mode == Auto {
        seen :- ReconcileService(now);
      }
      ghost var c := Check(cfg, reached, seen, draw);
      assert CheckBegun(c, now);
      if reached {
        var _ :- SuccessfulCheck(cfg, draw, now, c);
      } else {
        var _ :- FailedCheck(cfg, now, c);
      }
      r := CloseCheck(old(trace), c, now);
    }

    /** The last write of a check; a plain repeat when an action already saved it. */
    method CloseCheck(ghost before: Trace, ghost c: Cause, now: int) returns (r: Reply<()>)
      requires CheckDone(before, c, now)
      modifies this
      ensures Valid() && Extends(before, trace)
      ensures (old(failed) ==> failed) && (r.Returned? || failed)
      ensures r.Returned? ==> row.service.pendingAction.None?
      ensures r.Returned? ==>
                || trace == Then(before, c, now)
                || (trace.Then? && trace.cause.Echo? && JustSettled(Then(before, c, now), trace.past, now))
    {
      hide Legal, RowAfter, LogAfter, Announced;
      ghost var closing := if JustSettled(Then(before, c, now), trace, now) then Echo else c;
      assert Extends(before, Then(before, c, now));
      assert Extends(before, trace);
      NotItsOwnPast(before, c, now);
      r := Persist(closing, now);
    }

    /** The maintenance commands of the admin tool. Entering turns maintenance on and leaves ownership and
        override to the stop, if there is one; leaving turns it off and ends all ownership: without
        a start an inactive unit is then the operator's, with a start it is running and nobody's. */
    method ApplyMaintenance(command: Command, now: int) returns (r: Reply<()>)
      requires Valid()
      modifies this
      ensures Valid() && Extends(old(trace), trace)
      ensures old(failed) ==> failed
      ensures r.Returned? || failed ||
                (command == ExitStart && (row.vitals.health != Healthy || attested != Some(true)))
      ensures r.Returned? ==> trace.Then? && trace.cause.Finish? && trace.cause.command == command && trace.now == now
      ensures r.Returned? ==> (row.service.maintenance <==> command == EnterKeep || command == EnterStop)
      ensures r.Returned? && (command == ExitNoStart || command == ExitStart) ==>
                !row.service.stoppedByWatchdog && !row.service.stoppedByMaintenance
      ensures r.Returned? && (command == EnterKeep || command == ExitNoStart) ==>
                attested.Some? && row.service.lastServiceActive == attested
      ensures r.Returned? && command == ExitNoStart && attested == Some(false) ==> row.service.manualOverride
      ensures r.Returned? && command == ExitStart ==>
                && !row.service.manualOverride && row.service.lastServiceActive == Some(true)
                && row.vitals.health == Healthy
    {
      hide Legal, RowAfter, LogAfter, CommandDone;
      Load();
      var _ :- ReconcilePending(now);
      ghost var settled := trace;
      var active :- IsActive();
      service := service.(lastServiceActive := Some(active), lastServiceCheckAt := Some(now));
      if command == EnterKeep || command == EnterStop {
        r := EnterMaintenance(command, active, now);
      } else {
        r := ExitMaintenance(command, active, now);
      }
      ExtendsTransitive(old(trace), settled, trace);
      if r.Returned? {
        CommandIsDone();
      }
    }

    lemma CommandIsDone()
      requires Valid() && trace.Then? && trace.cause.Finish?
      ensures var command, look := trace.cause.command, trace.cause.look;
              && (row.service.maintenance <==> command == EnterKeep || command == EnterStop)
              && (command == ExitNoStart || command == ExitStart ==>
                    !row.service.stoppedByWatchdog && !row.service.stoppedByMaintenance)
              && (look.Some? && command != ExitStart ==> row.service.lastServiceActive == look)
              && (command == ExitNoStart && look == Some(false) ==> row.service.manualOverride)
              && (command == ExitStart ==>
                    && !row.service.manualOverride && row.service.lastServiceActive == Some(true)
                    && row.vitals.health == Healthy)
    {
      FinishLeaves(trace);
    }

    /** Memory is the row plus one look at the unit. */
    ghost predicate Glanced(active: bool, now: int)
      reads this
    {
      && Valid() && events == [] && row.service.pendingAction.None?
      && Current() == row.(service := row.service.(lastServiceActive := Some(active), lastServiceCheckAt := Some(now)))
    }

    method EnterMaintenance(command: Command, active: bool, now: int) returns (r: Reply<()>)
      requires Glanced(active, now) && attested == Some(active) && (command == EnterKeep || command == EnterStop)
      modifies this
      ensures Valid() && Extends(old(trace), trace)
      ensures (old(failed) ==> failed) && (r.Returned? || failed)
      ensures r.Returned? ==> trace.Then? && trace.cause.Finish? && trace.cause.command == command && trace.now == now
      ensures r.Returned? && (command == EnterKeep || command == ExitNoStart) ==>
                attested == old(attested) && trace.cause.look == attested
    {
      hide Legal, RowAfter, LogAfter, Announced;
      var shown := DisplayOf(Current());
      ghost var look := Some(active);
      service := service.(maintenance := true);
      if command == EnterStop && active {
        var _ :- Stop(ByMaintenance, now, EnterStopIntent);
        look := None;
        AfterOperatorAction(old(trace), EnterStopIntent, trace, now);
      }
      ghost var acted := trace;
      NoteEntry(command, shown, now);
      r := FinishMaintenance(command, look, shown, now);
      ExtendsTransitive(old(trace), acted, trace);
    }

    method NoteEntry(command: Command, shown: Display, now: int)
      modifies this`events, this`vitals
      ensures vitals == old(vitals).(lastTransitionAt := Some(now))
      ensures events == old(events) + [Note(old(vitals), MaintenanceEnabled, now).(
                previous := Some(shown), next := Some(MaintenanceShown),
                result := if command == EnterStop then MaintenanceStopped else NoResult)]
    {
      events := events + [Note(vitals, MaintenanceEnabled, now).(
                            previous := Some(shown), next := Some(MaintenanceShown),
                            result := if command == EnterStop then MaintenanceStopped else NoResult)];
      vitals := vitals.(lastTransitionAt := Some(now));
    }

    /** The state in memory is what the end of this command prescribes. */
    method FinishMaintenance(ghost command: Command, ghost look: Option<bool>, ghost shown: Display, now: int)
      returns (r: Reply<()>)
      requires Valid() && Guard(row, Finish(command, look, shown), now)
      requires vitals == row.vitals.(lastTransitionAt := Some(now)) && probing == row.probing
      requires service == Finished(row.service, command, look, now)
      requires events == Emitted(row, Finish(command, look, shown), now)
      modifies this`row, this`log, this`trace, this`events, this`failed
      ensures Valid() && Extends(old(trace), trace)
      ensures failed <==> old(failed) || !r.Returned?
      ensures r.Returned? ==> trace == Then(old(trace), Finish(command, look, shown), now)
    {
      r := Persist(Finish(command, look, shown), now);
    }

    method ExitMaintenance(command: Command, active: bool, now: int) returns (r: Reply<()>)
      requires Glanced(active, now) && attested == Some(active) && (command == ExitNoStart || command == ExitStart)
      modifies this
      ensures Valid() && Extends(old(trace), trace)
      ensures old(failed) ==> failed
      ensures r.Returned? || failed ||
                (command == ExitStart && (row.vitals.health != Healthy || attested != Some(true)))
      ensures r.Returned? ==> trace.Then? && trace.cause.Finish? && trace.cause.command == command && trace.now == now
      ensures r.Returned? && (command == EnterKeep || command == ExitNoStart) ==>
                attested == old(attested) && trace.cause.look == attested
    {
      hide Legal, RowAfter, LogAfter, Announced;
      var shown := DisplayOf(Current());
      ghost var look := Some(active);
      if command == ExitStart {
        look :- StartForExit(active, now);
        service := service.(lastServiceActive := Some(true), manualOverride := false);
        service := service.(stoppedByWatchdog := false, stoppedByMaintenance := false);
      } else if !active {
        service := service.(manualOverride := true, lastServiceActive := Some(false));
      }
      ghost var acted := trace;
      NoteExit(command, shown, now);
      r := FinishMaintenance(command, look, shown, now);
      ExtendsTransitive(old(trace), acted, trace);
    }

    method NoteExit(command: Command, shown: Display, now: int)
      modifies this`service, this`events, this`vitals
      ensures service == old(service).(maintenance := false, stoppedByMaintenance := false,
                                       stoppedByWatchdog := command != ExitNoStart && old(service).stoppedByWatchdog)
      ensures vitals == old(vitals).(lastTransitionAt := Some(now))
      ensures events == old(events) + [Note(old(vitals), MaintenanceDisabled, now).(
                previous := Some(shown), next := Some(Shown(old(vitals).health)),
                result := if command == ExitStart then MaintenanceExitStart else MaintenanceExitNoStart)]
    {
      service := service.(maintenance := false, stoppedByMaintenance := false);
      if command == ExitNoStart {
        service := service.(stoppedByWatchdog := false);
      }
      events := events + [Note(vitals, MaintenanceDisabled, now).(
                            previous := Some(shown), next := Some(Shown(vitals.health)),
                            result := if command == ExitStart then MaintenanceExitStart else MaintenanceExitNoStart)];
      vitals := vitals.(lastTransitionAt := Some(now));
    }

    /** Leaving maintenance with a start is refused unless the upstream is healthy and the stop is
        owned. Yields the look at an active unit, or nothing when the unit was started here. */
    method StartForExit(active: bool, now: int) returns (r: Reply<Option<bool>>)
      requires Glanced(active, now) && attested == Some(active)
      modifies this
      ensures Valid() && Extends(old(trace), trace)
      ensures old(failed) ==> failed
      ensures r.Returned? || failed || row.vitals.health != Healthy || attested != Some(true)
      ensures r.Returned? ==> r.value == (if active then Some(true) else None) && row.vitals.health == Healthy
      ensures r.Returned? && active ==> Glanced(true, now) && unchanged(this)
      ensures r.Returned? && !active ==> Clean() && row.service.pendingAction.None?
      ensures old(row).vitals.health != Healthy || (!active && !Owned(old(row).service)) ==>
                r.Raised? && trace == old(trace)
    {
      hide Legal, RowAfter, LogAfter, Announced;
      if vitals.health != Healthy {
        return Raised;
      }
      if !active {
        if !(service.stoppedByMaintenance || service.stoppedByWatchdog) {
          return Raised;
        }
        var started :- StartService(ByMaintenance, now, ExitStartIntent);
        if !started {
          return Raised;
        }
        AfterOperatorAction(old(trace), ExitStartIntent, trace, now);
        return Returned(None);
      }
      return Returned(Some(true));
    }

    /** An owned service may be started while switching modes: the upstream is healthy, by a check no
        older than two intervals or ten seconds, and the watchdog stopped the service. */
    predicate Startable(checkInterval: nat, now: int)
      reads this`row
    {
      && row.vitals.health == Healthy && row.probing.checkStatus == Success && row.service.stoppedByWatchdog
      && row.probing.lastCheckAt.Some?
      && row.probing.lastCheckAt.value <= now
      && (now <= row.probing.lastCheckAt.value + 10 || now <= row.probing.lastCheckAt.value + 2 * checkInterval)
    }

    /** The operator starts an owned service while switching modes. */
    method StartOwnedForModeChange(checkInterval: nat, now: int) returns (r: Reply<()>)
      requires Valid()
      modifies this
      ensures Valid() && Extends(old(trace), trace)
      ensures old(failed) ==> failed
      ensures r.Returned? || failed || !old(Startable(checkInterval, now)) || attested != Some(true)
      ensures !old(Startable(checkInterval, now)) ==> r.Raised? && trace == old(trace) && orders == old(orders)
      ensures r.Returned? ==> && JustSettled(Then(old(trace), OperatorIntent, now), trace, now)
                              && !ByReconciliation(trace.cause.how) && trace.cause.how != StartRefused
                              && attested == Some(true)
    {
      hide Legal, RowAfter, LogAfter, Announced;
      Load();
      var freshness := Max(10, checkInterval * 2);
      if || vitals.health != Healthy || probing.checkStatus != Success || probing.lastCheckAt.None?
         || now - probing.lastCheckAt.value < 0 || now - probing.lastCheckAt.value > freshness {
        return Raised;
      }
      if !service.stoppedByWatchdog {
        return Raised;
      }
      var started :- StartService(ByOperator, now, OperatorIntent);
      if !started {
        return Raised;
      }
      return Returned(());
    }

    /** Ends the operator's override; refused without one, and for an inactive unit that the watchdog did
        not stop. */
    method RearmOverride(now: int) returns (r: Reply<()>)
      requires Valid()
      modifies this
      ensures Valid() && Extends(old(trace), trace)
      ensures old(failed) ==> failed
      ensures r.Returned? || failed || !old(row).service.manualOverride ||
                (attested == Some(false) && !old(row).service.stoppedByWatchdog)
      ensures !old(row).service.manualOverride ==> r.Raised? && trace == old(trace)
      ensures attested == Some(false) && !old(row).service.stoppedByWatchdog ==> !r.Returned? && trace == old(trace)
      ensures r.Returned? ==> attested.Some? && trace == Then(old(trace), Rearm(attested.value), now)
      ensures r.Returned? ==> && !row.service.manualOverride && SameOwner(old(row).service, row.service)
                              && row.service.lastServiceActive == attested
    {
      hide Legal, RowAfter, LogAfter, Announced, Written, Emitted, SameOwner;
      attested := None;
      Load();
      if !service.manualOverride {
        return Raised;
      }
      var active :- IsActive();
      if !active && !service.stoppedByWatchdog {
        return Raised;
      }
      r := SaveRearmed(active, now);
    }

    method SaveRearmed(active: bool, now: int) returns (r: Reply<()>)
      requires Valid() && Clean() && Guard(row, Rearm(active), now)
      modifies this`service, this`row, this`log, this`trace, this`events, this`failed
      ensures Valid() && Extends(old(trace), trace) && (failed <==> old(failed) || !r.Returned?)
      ensures r.Returned? ==> trace == Then(old(trace), Rearm(active), now)
      ensures r.Returned? ==> && !row.service.manualOverride && SameOwner(old(row).service, row.service)
                              && row.service.lastServiceActive == Some(active)
    {
      hide Legal, RowAfter, LogAfter, Announced;
      service := service.(manualOverride := false, lastServiceActive := Some(active), lastServiceCheckAt := Some(now));
      events := events + [Note(vitals, ManualOverride, now).(result := RearmedResult)];
      r := Persist(Rearm(active), now);
      if r.Returned? {
        RearmLeaves(trace);
      }
    }

    // ----- Whole runs -------------------------------------------------------------------

    method Perform(op: Operation, now: int) returns (r: Reply<()>)
      requires Valid()
      modifies this
      ensures Valid() && Extends(old(trace), trace)
    {
      match op
      case ReconcileProfile => r := ReconcileRow(now);
      case CheckProfile(cfg, probe, draw) => r := Process(cfg, probe, draw, now);
      case Maintain(command) => r := ApplyMaintenance(command, now);
      case StartOwned(checkInterval) => r := StartOwnedForModeChange(checkInterval, now);
      case RearmProfile => r := RearmOverride(now);
    }

    /** Any operations in any order, each free to fail or crash anywhere: what was on disk stays
        on disk, every systemctl order was announced there first, the row is well formed, the
        log replays to it, and no start outruns its stop. */
    method Run(ops: seq<(Operation, int)>)
      requires Valid()
      modifies this
      ensures Valid() && Extends(old(trace), trace)
      ensures forall o <- orders :: o.intent.Some?
      ensures forall o <- orders :: !o.start ==> o.intent == Some(StopWatchdog) || o.intent == Some(StopMaintenance)
      ensures Structural(row)
      ensures Replay(log) == Some(row.vitals.health)
      ensures forall k: nat :: k <= |log| ==> Tally(log[..k], ProfileStarted) <= Tally(log[..k], ProfileStopped)
    {
      hide Legal, RowAfter, LogAfter;
      for i := 0 to |ops|
        invariant Valid() && Extends(old(trace), trace)
      {
        ghost var before := trace;
        var _ := Perform(ops[i].0, ops[i].1);
        ExtendsTransitive(old(trace), before, trace);
      }
      ReachableRowIsStructural(trace);
      LogReplaysToRow(trace);
      forall k: nat | k <= |log|
        ensures Tally(log[..k], ProfileStarted) <= Tally(log[..k], ProfileStopped)
      {
        StartsNeverOutnumberStops(trace, k);
      }
    }
  }
}
