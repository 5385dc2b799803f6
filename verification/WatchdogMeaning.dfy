/** What the health machine, the intents and the commands amount to, said without the machine: in
    terms of the probe results committed so far, and of the row before and after a commit. */
module WatchdogMeaning {
  import opened Common
  import opened WatchdogProtocol
  import opened WatchdogTheorems

  // ----- Health is a function of the probe history --------------------------------------

  /** Every check so far ran under these thresholds and this hold. */
  predicate Fixed(t: Trace, n: nat, m: nat, hold: nat) {
    match t
    case Start => true
    case Then(past, cause, _) =>
      && Fixed(past, n, m, hold)
      && (cause.Check? ==>
            cause.cfg.failureThreshold == n && cause.cfg.successThreshold == m && cause.cfg.holdSeconds == hold)
  }

  predicate EverChecked(t: Trace) {
    t.Then? && (t.cause.Check? || EverChecked(t.past))
  }

  /** The check of the current run of successes that was the `m`-th, with its time and jitter. */
  function MetAt(t: Trace, m: nat): Option<(int, int)> {
    match t
    case Start => None
    case Then(past, cause, now) =>
      if !cause.Check? then MetAt(past, m)
      else if !cause.reached then None
      else if SuccessRun(t) == m then Some((now, cause.jitter))
      else MetAt(past, m)
  }

  /** When the current run of successes began. */
  function RunStart(t: Trace): int
    requires SuccessRun(t) > 0
  {
    if t.cause.Check? && SuccessRun(t.past) == 0 then t.now else RunStart(t.past)
  }

  /** The moment from which a success ends an outage. */
  function ReadyAt(t: Trace, m: nat, hold: nat): Option<int> {
    match MetAt(t, m)
    case None => None
    case Some((at, jitter)) => Some(at + hold + jitter)
  }

  /** Since when the profile has been in an outage: one begins with the `n`-th unreachable probe in a
      row, and ends with a success at or after the ready moment. */
  function OutageSince(t: Trace, n: nat, m: nat, hold: nat): Option<int> {
    match t
    case Start => None
    case Then(past, cause, now) =>
      var before := OutageSince(past, n, m, hold);
      if !cause.Check? then before
      else if !cause.reached then
        if before.None? && UnreachableRun(t) >= n then Some(now) else before
      else
        if ReadyAt(t, m, hold).Some? && now >= ReadyAt(t, m, hold).value then None else before
  }

  /** Degraded by a failure, down after `n` of them, recovering while successes do not suffice yet. */
  function HealthOf(checked: bool, outage: bool, successes: nat): Health {
    if !checked then Unknown
    else if outage then (if successes > 0 then Recovering else Down)
    else (if successes > 0 then Healthy else Degraded)
  }

  ghost predicate Exact(v: Vitals, t: Trace, n: nat, m: nat, hold: nat) {
    var outage := OutageSince(t, n, m, hold);
    var ready := if v.health == Recovering then ReadyAt(t, m, hold) else None;
    && v.health == HealthOf(EverChecked(t), outage.Some?, SuccessRun(t))
    && v.failureCount == Min(UnreachableRun(t), n) && v.successCount == Min(SuccessRun(t), m)
    && v.outageStartedAt == outage
    && v.recoveryStartedAt == (if v.health == Recovering then Some(RunStart(t)) else None)
    && v.recoveryReadyAt == ready
    && v.recoveryJitter == (if ready.Some? then MetAt(t, m).value.1 else 0)
  }

  /** How the probe history develops. */
  lemma {:induction false} RunsExclude(t: Trace, m: nat)
    ensures UnreachableRun(t) == 0 || SuccessRun(t) == 0
    ensures EverChecked(t) <==> UnreachableRun(t) > 0 || SuccessRun(t) > 0
    ensures m > 0 ==> (MetAt(t, m).Some? <==> SuccessRun(t) >= m)
  {
    if t.Then? {
      RunsExclude(t.past, m);
    }
  }

  lemma {:induction false} OutageHasCause(t: Trace, n: nat, m: nat, hold: nat)
    requires n > 0 && m > 0
    ensures UnreachableRun(t) >= n ==> OutageSince(t, n, m, hold).Some?
    ensures OutageSince(t, n, m, hold).Some? ==> EverChecked(t)
    ensures OutageSince(t, n, m, hold).None? ==> UnreachableRun(t) < n
  {
    if t.Then? {
      OutageHasCause(t.past, n, m, hold);
    }
  }

  lemma FailureIsExact(v: Vitals, past: Trace, c: Cause, now: int, n: nat, m: nat, hold: nat)
    requires n > 0 && m > 0 && Exact(v, past, n, m, hold) && c.Check? && !c.reached
    requires c.cfg.failureThreshold == n && c.cfg.successThreshold == m && c.cfg.holdSeconds == hold
    ensures Exact(CheckedVitals(v, c, now), Then(past, c, now), n, m, hold)
  {
    RunsExclude(past, m);
    OutageHasCause(past, n, m, hold);
  }

  lemma SuccessIsExact(v: Vitals, past: Trace, c: Cause, now: int, n: nat, m: nat, hold: nat)
    requires n > 0 && m > 0 && Exact(v, past, n, m, hold) && c.Check? && c.reached
    requires c.cfg.failureThreshold == n && c.cfg.successThreshold == m && c.cfg.holdSeconds == hold
    ensures Exact(CheckedVitals(v, c, now), Then(past, c, now), n, m, hold)
  {
    RunsExclude(past, m);
    RunsExclude(Then(past, c, now), m);
    OutageHasCause(past, n, m, hold);
  }

  /** In every history under one configuration, crashes included, the row's health, counters, outage
      and recovery are exactly what the committed probe results say. */
  lemma {:induction false} HealthIsExact(t: Trace, n: nat, m: nat, hold: nat)
    requires Legal(t) && n > 0 && m > 0 && Fixed(t, n, m, hold)
    ensures Exact(RowAfter(t).vitals, t, n, m, hold)
  {
    if t.Then? {
      HealthIsExact(t.past, n, m, hold);
      var r := RowAfter(t.past);
      if t.cause.Check? {
        if t.cause.reached {
          SuccessIsExact(r.vitals, t.past, t.cause, t.now, n, m, hold);
        } else {
          FailureIsExact(r.vitals, t.past, t.cause, t.now, n, m, hold);
        }
      }
    }
  }

  /** The threshold acts: that many unreachable probes in a row are an outage. */
  lemma ThresholdActs(t: Trace, n: nat, m: nat, hold: nat)
    requires Legal(t) && n > 0 && m > 0 && Fixed(t, n, m, hold) && UnreachableRun(t) >= n
    ensures RowAfter(t).vitals.health == Down && RowAfter(t).vitals.failureCount == n
  {
    HealthIsExact(t, n, m, hold);
    RunsExclude(t, m);
    OutageHasCause(t, n, m, hold);
  }

  /** And so does the hold: a success at or after the ready moment ends the outage. */
  lemma RecoveryCompletes(t: Trace, n: nat, m: nat, hold: nat)
    requires Legal(t) && n > 0 && m > 0 && Fixed(t, n, m, hold) && t.Then? && t.cause.Check? && t.cause.reached
    requires ReadyAt(t, m, hold).Some? && t.now >= ReadyAt(t, m, hold).value
    ensures RowAfter(t).vitals.health == Healthy && RowAfter(t).vitals.outageStartedAt.None?
  {
    HealthIsExact(t, n, m, hold);
    RunsExclude(t, m);
  }

  // ----- When the watchdog acts ---------------------------------------------------------

  /** Automatic, and nobody objects once the unit was looked at. */
  predicate Undisputed(t: Trace)
    requires Legal(t) && t.Then? && t.cause.Check?
  {
    t.cause.cfg.mode == Auto && !RowAfter(t).service.maintenance && !RowAfter(t).service.manualOverride
  }

  /** A stop intent is written exactly by an undisputed unreachable check that has counted up to the
      threshold, unless the profile was recovering, or was down with its service stopped already. */
  lemma StopIntentIsExact(t: Trace)
    requires Legal(t) && t.Then?
    ensures WritesIntent(t, StopWatchdog) <==>
              && t.cause.Check? && !t.cause.reached && Undisputed(t)
              && RowAfter(t).vitals.failureCount >= t.cause.cfg.failureThreshold
              && RowAfter(t.past).vitals.health != Recovering
              && (RowAfter(t.past).vitals.health != Down || !RowAfter(t).service.stoppedByWatchdog)
  {
    if !t.cause.Check? {
      OnlyChecksWriteIntents(RowAfter(t.past), t.cause, t.now);
    }
  }

  /** A start intent is written exactly by an undisputed success that leaves the profile healthy after an
      outage or while it was healthy, with its service still stopped by the watchdog. */
  lemma StartIntentIsExact(t: Trace)
    requires Legal(t) && t.Then?
    ensures WritesIntent(t, StartWatchdog) <==>
              && t.cause.Check? && t.cause.reached && Undisputed(t)
              && RowAfter(t).vitals.health == Healthy && RowAfter(t).service.stoppedByWatchdog
              && RowAfter(t.past).vitals.health != Unknown && RowAfter(t.past).vitals.health != Degraded
  {
    if !t.cause.Check? {
      OnlyChecksWriteIntents(RowAfter(t.past), t.cause, t.now);
    }
  }

  /** Under one configuration: the `n`-th unreachable probe in a row stops the service. */
  lemma StopIsDue(t: Trace, n: nat, m: nat, hold: nat)
    requires Legal(t) && n > 0 && m > 0 && Fixed(t, n, m, hold) && t.Then? && t.cause.Check? && !t.cause.reached
    requires UnreachableRun(t) >= n && Undisputed(t) && RowAfter(t.past).vitals.health != Recovering
    requires RowAfter(t.past).vitals.health != Down || !RowAfter(t).service.stoppedByWatchdog
    ensures WritesIntent(t, StopWatchdog)
  {
    ThresholdActs(t, n, m, hold);
    StopIntentIsExact(t);
  }

  /** Under one configuration: a success at or after the ready moment of an outage starts the service
      that the watchdog stopped. */
  lemma StartIsDue(t: Trace, n: nat, m: nat, hold: nat)
    requires Legal(t) && n > 0 && m > 0 && Fixed(t, n, m, hold) && t.Then? && t.cause.Check? && t.cause.reached
    requires ReadyAt(t, m, hold).Some? && t.now >= ReadyAt(t, m, hold).value && InOutage(RowAfter(t.past).vitals)
    requires Undisputed(t) && RowAfter(t).service.stoppedByWatchdog
    ensures WritesIntent(t, StartWatchdog)
  {
    RecoveryCompletes(t, n, m, hold);
    StartIntentIsExact(t);
  }

  // ----- The look at the unit -----------------------------------------------------------

  /** What a check does to the service columns, apart from its intent: it looks every ten seconds in
      automatic mode; finding a unit active that was stopped here, or inactive that was not and was
      not known to be, hands it over to the operator. */
  lemma LookIsExact(t: Trace)
    requires Legal(t) && t.Then? && t.cause.Check?
    ensures var b, s, seen := RowAfter(t.past).service, RowAfter(t).service, t.cause.seen;
            && s.maintenance == b.maintenance
            && (seen.Some? <==> t.cause.cfg.mode == Auto
                                && (b.lastServiceCheckAt.None? || t.now - b.lastServiceCheckAt.value >= 10))
            && (seen.None? ==> && SameOwner(b, s) && s.manualOverride == b.manualOverride
                               && s.lastServiceActive == b.lastServiceActive
                               && s.lastServiceCheckAt == b.lastServiceCheckAt)
            && (seen.Some? ==> s.lastServiceActive == seen && s.lastServiceCheckAt == Some(t.now))
            && (seen == Some(true) && (b.stoppedByWatchdog || b.stoppedByMaintenance) ==>
                  !s.stoppedByWatchdog && !s.stoppedByMaintenance && s.manualOverride)
            && (seen == Some(true) && !b.stoppedByWatchdog && !b.stoppedByMaintenance ==>
                  SameOwner(b, s) && s.manualOverride == b.manualOverride)
            && (seen == Some(false) ==>
                  && SameOwner(b, s)
                  && (s.manualOverride <==> b.manualOverride || (!b.stoppedByWatchdog && !b.stoppedByMaintenance
                                                                 && b.lastServiceActive != Some(false))))
            && (s.pendingAction.Some? ==> s.pendingActionAt == Some(t.now))
  {
  }

  /** The time of the last transition moves with the health, and with nothing else in a check. */
  lemma TransitionTime(t: Trace)
    requires Legal(t) && t.Then? && t.cause.Check?
    ensures RowAfter(t).vitals.lastTransitionAt ==
            if RowAfter(t).vitals.health == RowAfter(t.past).vitals.health then RowAfter(t.past).vitals.lastTransitionAt
            else Some(t.now)
  {
  }

  /** What a probe leaves in the row. */
  lemma ProbeIsRecorded(t: Trace)
    requires Legal(t) && t.Then? && (t.cause.Check? || t.cause.ProbeFault?)
    ensures RowAfter(t).probing.lastCheckAt == Some(t.now)
    ensures t.cause.Check? ==> RowAfter(t).probing.checkStatus == (if t.cause.reached then Success else Unreachable)
    ensures t.cause.Check? ==> RowAfter(t).probing.lastProbeError == NoError
    ensures t.cause.ProbeFault? ==> RowAfter(t).probing.checkStatus == ProbeError
    ensures t.cause.ProbeFault? ==> RowAfter(t).probing.lastProbeError == t.cause.category
    ensures t.cause.ProbeFault? ==>
              RowAfter(t).vitals == RowAfter(t.past).vitals && RowAfter(t).service == RowAfter(t.past).service
  {
  }

  // ----- Commands -----------------------------------------------------------------------

  /** What a finished maintenance command leaves. */
  predicate CommandDone(b: Service, s: Service, command: Command, look: Option<bool>, now: int) {
    && (s.maintenance <==> command == EnterKeep || command == EnterStop)
    && (command == EnterKeep || command == EnterStop ==> SameOwner(b, s) && s.manualOverride == b.manualOverride)
    && (command == ExitNoStart || command == ExitStart ==> !s.stoppedByWatchdog && !s.stoppedByMaintenance)
    && (command == ExitNoStart ==> (s.manualOverride <==> b.manualOverride || look == Some(false)))
    && (command == ExitStart ==> !s.manualOverride && s.lastServiceActive == Some(true))
    && (look.Some? ==> s.lastServiceCheckAt == Some(now) && (command != ExitStart ==> s.lastServiceActive == look))
    && s.pendingAction.None?
  }

  lemma FinishLeaves(t: Trace)
    requires Legal(t) && t.Then? && t.cause.Finish?
    ensures CommandDone(RowAfter(t.past).service, RowAfter(t).service, t.cause.command, t.cause.look, t.now)
    ensures RowAfter(t).vitals == RowAfter(t.past).vitals.(lastTransitionAt := Some(t.now))
    ensures RowAfter(t).probing == RowAfter(t.past).probing
    ensures t.cause.command == ExitStart ==> RowAfter(t).vitals.health == Healthy
  {
  }

  /** Rearming ends the operator's override and nothing else. */
  lemma RearmLeaves(t: Trace)
    requires Legal(t) && t.Then? && t.cause.Rearm?
    ensures var b, s := RowAfter(t.past).service, RowAfter(t).service;
            && b.manualOverride && !s.manualOverride && SameOwner(b, s) && s.maintenance == b.maintenance
            && (t.cause.active || b.stoppedByWatchdog)
            && s.lastServiceActive == Some(t.cause.active) && s.lastServiceCheckAt == Some(t.now)
            && s.pendingAction == b.pendingAction
    ensures RowAfter(t).vitals == RowAfter(t.past).vitals && RowAfter(t).probing == RowAfter(t.past).probing
  {
  }

  /** The intents that commands write, and what they are written with. */
  lemma CommandIntents(t: Trace)
    requires Legal(t) && t.Then? && (t.cause.EnterStopIntent? || t.cause.ExitStartIntent? || t.cause.OperatorIntent?)
    ensures var b, s := RowAfter(t.past).service, RowAfter(t).service;
            && s.pendingAction == Some(if t.cause.EnterStopIntent? then StopMaintenance
                                       else if t.cause.ExitStartIntent? then StartMaintenance else StartOperator)
            && s.pendingActionAt == Some(t.now)
            && SameOwner(b, s) && s.manualOverride == b.manualOverride
            && (s.maintenance <==> b.maintenance || t.cause.EnterStopIntent?)
            && (t.cause.ExitStartIntent? ==> RowAfter(t.past).vitals.health == Healthy && Owned(b))
            && (t.cause.OperatorIntent? ==> && RowAfter(t.past).vitals.health == Healthy && b.stoppedByWatchdog
                                            && RowAfter(t.past).probing.checkStatus == Success)
    ensures RowAfter(t).vitals == RowAfter(t.past).vitals && RowAfter(t).probing == RowAfter(t.past).probing
  {
  }

  // ----- How actions end ----------------------------------------------------------------

  /** What settling an action leaves, by what happened: done stops set the intending owner, done starts
      end all ownership, and whatever failed hands the unit over to the operator. */
  predicate ActionDone(b: Service, s: Service, a: Action, how: Ending, now: int) {
    && s.pendingAction.None? && s.pendingActionAt.None? && s.lastServiceCheckAt == Some(now)
    && (how == StoppedNow || how == FoundInactive ==>
          && (s.stoppedByWatchdog <==> a == StopWatchdog) && (s.stoppedByMaintenance <==> a == StopMaintenance)
          && s.manualOverride == b.manualOverride && s.lastServiceActive == Some(false))
    && (how == StartedNow || how == StartedRetried || how == FoundActive ==>
          !Owned(s) && !s.manualOverride && s.lastServiceActive == Some(true))
    && (how == Compensated || how == StillActive ==>
          !Owned(s) && s.manualOverride && s.lastServiceActive == Some(true))
    && (how == StopRefused || how == AlreadyInactive || how == QueryFailed ==> SameOwner(b, s) && s.manualOverride)
    && (how == StartRefused || how == StillInactive ==> SameOwner(b, s) && s.manualOverride)
    && (how == StopRefused ==> s.lastServiceActive == Some(true))
    && (how == AlreadyInactive || how == StartRefused || how == StillInactive ==> s.lastServiceActive == Some(false))
    && (how == QueryFailed ==> s.lastServiceActive == b.lastServiceActive)
    && (s.maintenance <==>
          || (how == FoundInactive && a == StopMaintenance)
          || (b.maintenance && !(how == FoundActive && a == StartMaintenance)))
  }

  lemma SettledIsDone(b: Service, a: Action, how: Ending, now: int)
    requires Fits(a, how)
    ensures ActionDone(b, Settled(b, a, how, now), a, how, now)
  {
  }

  lemma ActionEnds(t: Trace)
    requires Legal(t) && t.Then? && t.cause.Settle?
    ensures Pending(t.past).Some?
    ensures ActionDone(RowAfter(t.past).service, RowAfter(t).service, Pending(t.past).value, t.cause.how, t.now)
    ensures RowAfter(t).vitals == RowAfter(t.past).vitals && RowAfter(t).probing == RowAfter(t.past).probing
  {
    hide Settled, ActionDone;
    SettledIsDone(RowAfter(t.past).service, Pending(t.past).value, t.cause.how, t.now);
  }

  /** Which endings an intent can have: stops end in stops, starts in starts. */
  lemma EndingsFit(t: Trace)
    requires Legal(t) && t.Then? && t.cause.Settle?
    ensures var a, how := Pending(t.past), t.cause.how;
            if a == Some(StopWatchdog) || a == Some(StopMaintenance)
            then || how == QueryFailed || how == StillActive || how == FoundInactive
                 || how == AlreadyInactive || how == StopRefused || how == StoppedNow || how == Compensated
            else || how == QueryFailed || how == StillInactive || how == FoundActive
                 || how == StartRefused || how == StartedNow || how == StartedRetried
  {
  }

  // ----- Events -------------------------------------------------------------------------

  /** What a commit appends to the log, as code, result and error of each event. */
  function Notes(es: seq<Event>): seq<(Code, ActionResult, ErrorCategory)> {
    seq(|es|, i requires 0 <= i < |es| => (es[i].code, es[i].result, es[i].error))
  }

  /** The events of a settled action, written out. */
  lemma SettlementNotes(v: Vitals, a: Action, how: Ending, now: int)
    requires Fits(a, how)
    ensures var notes := Notes(SettledEvents(v, a, how, now));
            && (how == StoppedNow && a == StopWatchdog ==> notes == [(ProfileStopped, StoppedResult, NoError)])
            && (how == StoppedNow && a == StopMaintenance ==> notes == [])
            && (how == FoundInactive && a == StopWatchdog ==> notes == [(ProfileStopped, IntentReconciled, NoError)])
            && (how == FoundInactive && a == StopMaintenance ==>
                  notes == [(MaintenanceEnabled, MaintenanceStopped, NoError)])
            && (how == AlreadyInactive ==> notes == [(ManualOverride, ManualStop, NoError)])
            && (how == StopRefused ==> notes == [(StopFailed, FailedResult, CannotStop)])
            && (how == StillActive ==> notes == [(ActionError, FailedResult, CannotStop)])
            && (how == Compensated ==> notes == [(ActionError, CompensatedResult, PersistenceFailed)])
            && (how == QueryFailed ==> notes == [(ActionError, FailedResult, ServiceStateUnavailable)])
  {
  }

  lemma StartNotes(v: Vitals, a: Action, how: Ending, now: int)
    requires Fits(a, how)
    ensures var notes := Notes(SettledEvents(v, a, how, now));
            var error := (ActionError, IntentReconciled, PersistenceFailed);
            && (how == StartedNow && a == StartWatchdog ==> notes == [(ProfileStarted, StartedResult, NoError)])
            && (how == StartedNow && a == StartOperator ==> notes == [(ModeChangeStart, OperatorStarted, NoError)])
            && (how == StartedNow && a == StartMaintenance ==> notes == [])
            && (how == StartedRetried && a == StartWatchdog ==>
                  notes == [(ProfileStarted, StartedResult, NoError), error])
            && (how == StartedRetried && a == StartOperator ==>
                  notes == [(ModeChangeStart, OperatorStarted, NoError), error])
            && (how == StartedRetried && a == StartMaintenance ==> notes == [error])
            && (how == FoundActive && a == StartWatchdog ==> notes == [(ProfileStarted, IntentReconciled, NoError)])
            && (how == FoundActive && a == StartOperator ==> notes == [(ModeChangeStart, OperatorStarted, NoError)])
            && (how == FoundActive && a == StartMaintenance ==>
                  notes == [(MaintenanceDisabled, MaintenanceExitStart, NoError)])
            && (how == StartRefused ==> notes == [(StartFailed, FailedResult, CannotStart)])
            && (how == StillInactive ==> notes == [(ActionError, FailedResult, CannotStart)])
  {
  }

  /** The events of commands and of faulty probes, written out. */
  lemma CommandNotes(r: Row, c: Cause, now: int)
    requires Guard(r, c, now) && !c.Check? && !c.Settle?
    ensures var es := Emitted(r, c, now);
            var notes := Notes(es);
            && (c.ProbeFault? ==>
                  notes == if r.probing.checkStatus == ProbeError && r.probing.lastProbeError == c.category then []
                           else [(ProbeFailed, NoResult, c.category)])
            && (c.Echo? || c.EnterStopIntent? || c.ExitStartIntent? || c.OperatorIntent? ==> notes == [])
            && (c.Rearm? ==> notes == [(ManualOverride, RearmedResult, NoError)])
            && (c.Finish? ==>
                  && |es| == 1 && es[0].previous == Some(c.shown) && es[0].error == NoError
                  && (c.command == EnterKeep ==> es[0].code == MaintenanceEnabled && es[0].result == NoResult)
                  && (c.command == EnterStop ==> es[0].code == MaintenanceEnabled && es[0].result == MaintenanceStopped)
                  && (c.command == EnterKeep || c.command == EnterStop ==> es[0].next == Some(MaintenanceShown))
                  && (c.command == ExitNoStart ==>
                        es[0].code == MaintenanceDisabled && es[0].result == MaintenanceExitNoStart)
                  && (c.command == ExitStart ==>
                        es[0].code == MaintenanceDisabled && es[0].result == MaintenanceExitStart)
                  && (c.command == ExitNoStart || c.command == ExitStart ==>
                        es[0].next == Some(Shown(r.vitals.health))))
  {
  }

  /** The events of a check, written out: the end of a probe error, a manual start or stop that was not
      known yet, and the change of health with the length of the outage it ends. */
  lemma CheckNotes(r: Row, c: Cause, now: int)
    requires Guard(r, c, now) && c.Check? && VitalsInOrder(r.vitals)
    ensures var s, h := Written(r, c, now).service, Written(r, c, now).vitals.health;
            var recovered := if r.probing.checkStatus != ProbeError then []
                             else [(ProbeRecovered, NoResult, r.probing.lastProbeError)];
            var manual := if !s.manualOverride || r.service.manualOverride then []
                          else [(ManualOverride, if c.seen == Some(true) then ManualStart else ManualStop, NoError)];
            var moved := if h == r.vitals.health then []
                         else if r.vitals.health == Down && h == Healthy
                         then [(Entered(Recovering), NoResult, NoError), (Entered(Healthy), NoResult, NoError)]
                         else [(Entered(h), NoResult, NoError)];
            Notes(Emitted(r, c, now)) == recovered + manual + moved
  {
  }

  /** Events carry the time and the counters, a change of health those after it. Only the event that
      ends an outage carries a length: the time since it began. */
  predicate Dated(es: seq<Event>, v: Vitals, a: Vitals, now: int) {
    forall e <- es ::
      && e.ts == now
      && e.failures == (if e.code.Entered? then a.failureCount else v.failureCount)
      && e.successes == (if e.code.Entered? then a.successCount else v.successCount)
      && (e.outage.Some? ==> e.code == Entered(Healthy))
      && (e.code == Entered(Healthy) ==>
            e.outage == if v.outageStartedAt.Some? then Some(Max(0, now - v.outageStartedAt.value)) else None)
  }

  lemma SettledIsDated(v: Vitals, a: Action, how: Ending, now: int)
    requires Fits(a, how)
    ensures Dated(SettledEvents(v, a, how, now), v, v, now)
  {
  }

  lemma CommandIsDated(r: Row, c: Cause, now: int)
    requires Guard(r, c, now) && !c.Settle? && !c.Check?
    ensures Dated(Emitted(r, c, now), r.vitals, Written(r, c, now).vitals, now)
  {
  }

  lemma AdvanceIsDated(v: Vitals, a: Vitals, now: int)
    requires VitalsInOrder(v)
    requires v.health == a.health || Edge(v.health, a.health) || (v.health == Down && a.health == Healthy)
    ensures Dated(AdvanceEvents(v, a, now), v, a, now)
  {
  }

  lemma StartIsDated(r: Row, a: Vitals, c: Cause, now: int)
    requires c.Check?
    ensures Dated(BegunEvents(r, now) + ObservedEvents(r, c.seen, now), r.vitals, a, now)
  {
  }

  lemma CheckIsDated(r: Row, c: Cause, now: int)
    requires Guard(r, c, now) && c.Check? && VitalsInOrder(r.vitals)
    ensures Dated(Emitted(r, c, now), r.vitals, Written(r, c, now).vitals, now)
  {
    hide Guard, Emitted, Written, BegunEvents, ObservedEvents, AdvanceEvents, Advance, Edge, Quiet, VitalsInOrder;
    CheckWrites(r, c, now);
    var a := CheckedVitals(r.vitals, c, now);
    StartIsDated(r, a, c, now);
    AdvanceTakesEdges(r.vitals, c.cfg, c.reached, now, c.jitter);
    AdvanceIsDated(r.vitals, a, now);
  }

  lemma OutageLengths(t: Trace)
    requires Legal(t) && t.Then?
    ensures LogAfter(t) == LogAfter(t.past) + LogAfter(t)[|LogAfter(t.past)|..]
    ensures Dated(LogAfter(t)[|LogAfter(t.past)|..], RowAfter(t.past).vitals, RowAfter(t).vitals, t.now)
  {
    ReachableRowIsStructural(t.past);
    hide Emitted, Written, Dated;
    var r := RowAfter(t.past);
    assert LogAfter(t)[|LogAfter(t.past)|..] == Emitted(r, t.cause, t.now);
    if t.cause.Settle? {
      NewEvents(r, t.cause, t.now);
      SettledIsDated(r.vitals, r.service.pendingAction.value, t.cause.how, t.now);
    } else if t.cause.Check? {
      CheckIsDated(r, t.cause, t.now);
    } else {
      CommandIsDated(r, t.cause, t.now);
    }
  }

  lemma NewEvents(r: Row, c: Cause, now: int)
    requires c.Settle? && Guard(r, c, now)
    ensures Emitted(r, c, now) == SettledEvents(r.vitals, r.service.pendingAction.value, c.how, now)
    ensures Written(r, c, now).vitals == r.vitals
  {
  }
}
