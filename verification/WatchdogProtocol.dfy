/** The durable side of the watchdog, event-sourced: what one committed transaction may
    write, and the row and log that a history of commits leaves behind. */
module WatchdogProtocol {
  import opened Common

  datatype Health = Unknown | Healthy | Degraded | Down | Recovering
  datatype Display = Shown(health: Health) | MaintenanceShown
  datatype Mode = Disabled | Monitor | Auto
  datatype CheckStatus = NeverChecked | Success | Unreachable | ProbeError
  datatype Action = StopWatchdog | StopMaintenance | StartWatchdog | StartMaintenance | StartOperator
  datatype Command = EnterKeep | EnterStop | ExitNoStart | ExitStart

  /** `Entered(h)` stands for the four health codes: watchdog_degraded,
      watchdog_upstream_down, watchdog_recovering and watchdog_upstream_healthy. */
  datatype Code =
    | Entered(health: Health)
    | ProfileStopped | ProfileStarted | StopFailed | StartFailed
    | ManualOverride | MaintenanceEnabled | MaintenanceDisabled
    | ProbeFailed | ProbeRecovered | ActionError | ModeChangeStart

  datatype ActionResult =
    | NoResult | StoppedResult | StartedResult | ManualStart | ManualStop | MaintenanceStopped
    | MaintenanceExitNoStart | MaintenanceExitStart | RearmedResult | FailedResult
    | IntentReconciled | CompensatedResult | OperatorStarted

  datatype ErrorCategory =
    | NoError | ServiceStateUnavailable | CannotStop | CannotStart | PersistenceFailed
    | PingBinaryMissing | PingPermissionDenied | PingExecutionFailed | PingExecutionTimeout

  datatype Event = Event(ts: int, code: Code, previous: Option<Display>, next: Option<Display>,
                         failures: nat, successes: nat, result: ActionResult,
                         outage: Option<int>, error: ErrorCategory)

  datatype Config = Config(mode: Mode, failureThreshold: nat, successThreshold: nat,
                           holdSeconds: nat, jitterMax: nat)

  /** The columns the health machine owns. */
  datatype Vitals = Vitals(
    health: Health, failureCount: nat, successCount: nat, lastTransitionAt: Option<int>,
    outageStartedAt: Option<int>, recoveryStartedAt: Option<int>, recoveryReadyAt: Option<int>,
    recoveryJitter: int)

  /** The columns that say who stopped the unit, what is being done to it and what was last seen. */
  datatype Service = Service(
    maintenance: bool, stoppedByWatchdog: bool, stoppedByMaintenance: bool, manualOverride: bool,
    lastServiceActive: Option<bool>, lastServiceCheckAt: Option<int>,
    pendingAction: Option<Action>, pendingActionAt: Option<int>)

  datatype Probing = Probing(lastCheckAt: Option<int>, checkStatus: CheckStatus, lastProbeError: ErrorCategory)

  /** One row of the profile_state table, its columns grouped by who writes them. */
  datatype Row = Row(vitals: Vitals, service: Service, probing: Probing)

  const FRESH_ROW := Row(Vitals(Unknown, 0, 0, None, None, None, None, 0),
                        Service(false, false, false, false, None, None, None, None),
                        Probing(None, NeverChecked, NoError))

  const SERVICE_RECONCILIATION_INTERVAL := 10

  predicate IsStop(a: Action) {
    a.StopWatchdog? || a.StopMaintenance?
  }

  function DisplayOf(r: Row): Display {
    if r.service.maintenance then MaintenanceShown else Shown(r.vitals.health)
  }

  function Note(v: Vitals, code: Code, now: int): Event {
    Event(now, code, None, None, v.failureCount, v.successCount, NoResult, None, NoError)
  }

  function TransitionNote(v: Vitals, from: Health, to: Health, now: int, outage: Option<int>): Event {
    Note(v, Entered(to), now).(previous := Some(Shown(from)), next := Some(Shown(to)), outage := outage)
  }

  // ----- The health machine -------------------------------------------------------------

  /** A recovering profile whose success has just been counted: draw the jitter once the
      threshold is met, and complete the recovery once the hold has passed. */
  function Ripen(v: Vitals, cfg: Config, now: int, jitter: int): Vitals {
    if v.successCount < cfg.successThreshold then v
    else
      var ready := if v.recoveryReadyAt.None?
                   then v.(recoveryJitter := jitter, recoveryReadyAt := Some(now + cfg.holdSeconds + jitter))
                   else v;
      if now < ready.recoveryReadyAt.value then ready
      else ready.(health := Healthy, lastTransitionAt := Some(now), outageStartedAt := None,
                  recoveryStartedAt := None, recoveryReadyAt := None, recoveryJitter := 0)
  }

  function CountedSuccess(v: Vitals, cfg: Config, now: int): Vitals {
    var counted := Min(v.successCount + 1, cfg.successThreshold);
    match v.health
    case Down =>
      v.(failureCount := 0, successCount := 1, health := Recovering, lastTransitionAt := Some(now),
         recoveryStartedAt := Some(now), recoveryReadyAt := None, recoveryJitter := 0)
    case Unknown | Degraded =>
      v.(failureCount := 0, successCount := counted, health := Healthy, lastTransitionAt := Some(now))
    case Healthy | Recovering =>
      v.(failureCount := 0, successCount := counted)
  }

  function AfterSuccess(v: Vitals, cfg: Config, now: int, jitter: int): Vitals {
    var counted := CountedSuccess(v, cfg, now);
    if counted.health == Recovering then Ripen(counted, cfg, now, jitter) else counted
  }

  function CountedFailure(v: Vitals, cfg: Config): Vitals {
    v.(successCount := 0, failureCount := Min(v.failureCount + 1, cfg.failureThreshold),
       recoveryStartedAt := None, recoveryReadyAt := None, recoveryJitter := 0)
  }

  function AfterFailure(v: Vitals, cfg: Config, now: int): Vitals {
    var counted := CountedFailure(v, cfg);
    if v.health == Recovering then
      counted.(health := Down, lastTransitionAt := Some(now))
    else if counted.failureCount >= cfg.failureThreshold then
      counted.(health := Down,
               lastTransitionAt := if v.health == Down then v.lastTransitionAt else Some(now),
               outageStartedAt := if v.outageStartedAt.None? then Some(now) else v.outageStartedAt)
    else if v.health == Unknown || v.health == Healthy then
      counted.(health := Degraded, lastTransitionAt := Some(now))
    else
      counted
  }

  function Advance(v: Vitals, cfg: Config, reached: bool, now: int, jitter: int): Vitals {
    if reached then AfterSuccess(v, cfg, now, jitter) else AfterFailure(v, cfg, now)
  }

  /** The check that meets the success threshold, and so draws the jitter. */
  predicate DrawsJitter(v: Vitals, cfg: Config, reached: bool, now: int) {
    reached &&
    var counted := CountedSuccess(v, cfg, now);
    counted.health == Recovering && counted.successCount >= cfg.successThreshold && counted.recoveryReadyAt.None?
  }

  function OutageLength(v: Vitals, now: int): Option<int> {
    if v.outageStartedAt.None? then None else Some(Max(0, now - v.outageStartedAt.value))
  }

  /** A threshold of one and no hold let one check recover a profile that was down:
      it then passes through recovering and emits both transitions. */
  function AdvanceEvents(v: Vitals, a: Vitals, now: int): seq<Event> {
    if v.health == a.health then []
    else if v.health == Down && a.health == Healthy then
      [TransitionNote(a, Down, Recovering, now, None),
       TransitionNote(a, Recovering, Healthy, now, OutageLength(v, now))]
    else
      [TransitionNote(a, v.health, a.health, now,
                      if v.health == Recovering && a.health == Healthy then OutageLength(v, now) else None)]
  }

  // ----- One check ----------------------------------------------------------------------

  function BegunEvents(r: Row, now: int): seq<Event> {
    if r.probing.checkStatus == ProbeError
    then [Note(r.vitals, ProbeRecovered, now).(error := r.probing.lastProbeError)] else []
  }

  predicate LookDue(s: Service, now: int) {
    s.lastServiceCheckAt.None? || now - s.lastServiceCheckAt.value >= SERVICE_RECONCILIATION_INTERVAL
  }

  predicate Owned(s: Service) {
    s.stoppedByWatchdog || s.stoppedByMaintenance
  }

  /** Someone else started a unit the watchdog had stopped, or stopped one it had not. */
  predicate Meddled(s: Service, active: bool) {
    if active then Owned(s) else !Owned(s) && s.lastServiceActive != Some(false)
  }

  /** The periodic look at the real unit; `None` when no look was due. */
  function Observed(s: Service, seen: Option<bool>, now: int): Service {
    match seen
    case None => s
    case Some(active) =>
      var looked := s.(lastServiceActive := seen, lastServiceCheckAt := Some(now));
      if !Meddled(s, active) then looked
      else if active then looked.(stoppedByWatchdog := false, stoppedByMaintenance := false, manualOverride := true)
      else looked.(manualOverride := true)
  }

  function ObservedEvents(r: Row, seen: Option<bool>, now: int): seq<Event> {
    if seen.Some? && Meddled(r.service, seen.value) && !r.service.manualOverride
    then [Note(r.vitals, ManualOverride, now).(result := if seen.value then ManualStart else ManualStop)]
    else []
  }

  predicate MayAct(s: Service, cfg: Config) {
    cfg.mode == Auto && !s.maintenance && !s.manualOverride
  }

  /** The action a check asks for: `v` and `a` are the vitals before and after its probe was
      counted, `s` the service columns after the look. */
  function IntentOf(v: Vitals, a: Vitals, s: Service, cfg: Config, reached: bool): Option<Action> {
    if !MayAct(s, cfg) then None
    else if reached then
      if s.stoppedByWatchdog && a.health == Healthy && v.health != Unknown && v.health != Degraded
      then Some(StartWatchdog) else None
    else
      if v.health != Recovering && a.failureCount >= cfg.failureThreshold && (v.health != Down || !s.stoppedByWatchdog)
      then Some(StopWatchdog) else None
  }

  function WithIntent(s: Service, intent: Option<Action>, now: int): Service {
    if intent.None? then s else s.(pendingAction := intent, pendingActionAt := Some(now))
  }

  // ----- Settling a pending action ------------------------------------------------------

  /** How a pending action can end: five ways in reconciliation, four in stop, three in start. */
  datatype Ending =
    | QueryFailed | StillActive | FoundInactive | StillInactive | FoundActive
    | AlreadyInactive | StopRefused | StoppedNow | Compensated
    | StartRefused | StartedNow | StartedRetried

  predicate ByReconciliation(how: Ending) {
    how.QueryFailed? || how.StillActive? || how.FoundInactive? || how.StillInactive? || how.FoundActive?
  }

  /** What systemd attested while an action was settled: its answer to the state query that came
      first, if it answered, and the last thing it attested. */
  datatype Evidence = Evidence(query: Option<bool>, last: Option<bool>)

  /** The evidence each ending rests on. */
  predicate Attests(seen: Evidence, how: Ending) {
    match how
    case QueryFailed => seen.query.None? && seen.last.None?
    case FoundInactive => seen.query.Some? && seen.last == Some(false)
    case FoundActive | StartedNow | StartedRetried => seen.query.Some? && seen.last == Some(true)
    case StillActive | StopRefused => seen.query == Some(true) && seen.last != Some(false)
    case StillInactive | StartRefused => seen.query == Some(false) && seen.last != Some(true)
    case AlreadyInactive => seen.query == Some(false) && seen.last == Some(false)
    case StoppedNow => seen.query == Some(true) && seen.last == Some(false)
    case Compensated => seen.query == Some(true) && seen.last == Some(true)
  }

  predicate Fits(a: Action, how: Ending) {
    match how
    case QueryFailed => true
    case StillActive | FoundInactive | AlreadyInactive | StopRefused | StoppedNow | Compensated => IsStop(a)
    case StillInactive | FoundActive | StartRefused | StartedNow | StartedRetried => !IsStop(a)
  }

  function Settled(s: Service, a: Action, how: Ending, now: int): Service {
    var idle := s.(pendingAction := None, pendingActionAt := None, lastServiceCheckAt := Some(now));
    match how
    case QueryFailed => idle.(manualOverride := true)
    case StillActive | Compensated =>
      idle.(manualOverride := true, stoppedByWatchdog := false, stoppedByMaintenance := false,
            lastServiceActive := Some(true))
    case StopRefused => idle.(manualOverride := true, lastServiceActive := Some(true))
    case AlreadyInactive | StillInactive | StartRefused =>
      idle.(manualOverride := true, lastServiceActive := Some(false))
    case FoundInactive | StoppedNow =>
      idle.(stoppedByWatchdog := a == StopWatchdog, stoppedByMaintenance := a == StopMaintenance,
            lastServiceActive := Some(false),
            maintenance := s.maintenance || (how == FoundInactive && a == StopMaintenance))
    case FoundActive | StartedNow | StartedRetried =>
      idle.(stoppedByWatchdog := false, stoppedByMaintenance := false, manualOverride := false,
            lastServiceActive := Some(true),
            maintenance := s.maintenance && !(how == FoundActive && a == StartMaintenance))
  }

  function SettledEvents(v: Vitals, a: Action, how: Ending, now: int): seq<Event> {
    match how
    case QueryFailed => [Note(v, ActionError, now).(result := FailedResult, error := ServiceStateUnavailable)]
    case StillActive => [Note(v, ActionError, now).(result := FailedResult, error := CannotStop)]
    case StillInactive => [Note(v, ActionError, now).(result := FailedResult, error := CannotStart)]
    case FoundInactive =>
      if a == StopWatchdog then [Note(v, ProfileStopped, now).(result := IntentReconciled)]
      else [Note(v, MaintenanceEnabled, now).(previous := Some(Shown(v.health)), next := Some(MaintenanceShown),
                                              result := MaintenanceStopped)]
    case FoundActive =>
      if a == StartWatchdog then [Note(v, ProfileStarted, now).(result := IntentReconciled)]
      else if a == StartMaintenance then
        [Note(v, MaintenanceDisabled, now).(previous := Some(MaintenanceShown), next := Some(Shown(v.health)),
                                            result := MaintenanceExitStart)]
      else [Note(v, ModeChangeStart, now).(result := OperatorStarted)]
    case AlreadyInactive => [Note(v, ManualOverride, now).(result := ManualStop)]
    case StopRefused => [Note(v, StopFailed, now).(result := FailedResult, error := CannotStop)]
    case StoppedNow =>
      if a == StopWatchdog then [Note(v, ProfileStopped, now).(result := StoppedResult)] else []
    case Compensated => [Note(v, ActionError, now).(result := CompensatedResult, error := PersistenceFailed)]
    case StartRefused => [Note(v, StartFailed, now).(result := FailedResult, error := CannotStart)]
    case StartedNow => StartedEvents(v, a, now)
    case StartedRetried =>
      StartedEvents(v, a, now) + [Note(v, ActionError, now).(result := IntentReconciled, error := PersistenceFailed)]
  }

  function StartedEvents(v: Vitals, a: Action, now: int): seq<Event> {
    if a == StartWatchdog then [Note(v, ProfileStarted, now).(result := StartedResult)]
    else if a == StartOperator then [Note(v, ModeChangeStart, now).(result := OperatorStarted)]
    else []
  }

  // ----- Commits ------------------------------------------------------------------------

  /** Why a transaction was written, with every answer the outside world gave for it. */
  datatype Cause =
    | ProbeFault(category: ErrorCategory)
    | Check(cfg: Config, reached: bool, seen: Option<bool>, jitter: int)
    | Echo                                     // the closing write of a check whose action is settled
    | EnterStopIntent | ExitStartIntent | OperatorIntent
    | Settle(how: Ending, evidence: Evidence)
    | Finish(command: Command, look: Option<bool>, shown: Display)  // no look when an action already ran
    | Rearm(active: bool)

  predicate MayCheck(r: Row, cfg: Config, seen: Option<bool>, now: int) {
    && r.service.pendingAction.None?
    && cfg.mode != Disabled
    && (seen.Some? <==> cfg.mode == Auto && LookDue(r.service, now))
  }

  predicate Guard(r: Row, c: Cause, now: int) {
    match c
    case ProbeFault(_) => r.service.pendingAction.None?
    case Check(cfg, reached, seen, jitter) =>
      && MayCheck(r, cfg, seen, now)
      && (DrawsJitter(r.vitals, cfg, reached, now) ==> 0 <= jitter <= cfg.jitterMax)
    case Echo => r.service.pendingAction.None?
    case EnterStopIntent => r.service.pendingAction.None?
    case ExitStartIntent =>
      r.service.pendingAction.None? && r.vitals.health == Healthy && Owned(r.service)
    case OperatorIntent =>
      r.vitals.health == Healthy && r.probing.checkStatus == Success && r.service.stoppedByWatchdog
    case Settle(how, evidence) =>
      r.service.pendingAction.Some? && Fits(r.service.pendingAction.value, how) && Attests(evidence, how)
    case Finish(command, look, shown) =>
      && r.service.pendingAction.None?
      && (look.Some? ==> shown == DisplayOf(r))
      && match command {
           case EnterKeep | ExitNoStart => look.Some?
           case EnterStop => look != Some(true)
           case ExitStart => look != Some(false) && r.vitals.health == Healthy
         }
    case Rearm(active) => r.service.manualOverride && (active || r.service.stoppedByWatchdog)
  }

  function CheckedVitals(v: Vitals, c: Cause, now: int): Vitals
    requires c.Check?
  {
    Advance(v, c.cfg, c.reached, now, c.jitter)
  }

  function CheckedService(r: Row, c: Cause, now: int): Service
    requires c.Check?
  {
    var looked := Observed(r.service, c.seen, now);
    WithIntent(looked, IntentOf(r.vitals, CheckedVitals(r.vitals, c, now), looked, c.cfg, c.reached), now)
  }

  function Finished(s: Service, command: Command, look: Option<bool>, now: int): Service {
    var looked := if look.None? then s else s.(lastServiceActive := look, lastServiceCheckAt := Some(now));
    match command
    case EnterKeep | EnterStop => looked.(maintenance := true)
    case ExitNoStart =>
      looked.(maintenance := false, stoppedByMaintenance := false, stoppedByWatchdog := false,
              manualOverride := s.manualOverride || look == Some(false))
    case ExitStart =>
      looked.(maintenance := false, stoppedByMaintenance := false, stoppedByWatchdog := false,
              manualOverride := false, lastServiceActive := Some(true))
  }

  function VitalsWritten(r: Row, c: Cause, now: int): Vitals {
    match c
    case Check(_, _, _, _) => CheckedVitals(r.vitals, c, now)
    case Finish(_, _, _) => r.vitals.(lastTransitionAt := Some(now))
    case _ => r.vitals
  }

  function ServiceWritten(r: Row, c: Cause, now: int): Service
    requires Guard(r, c, now)
  {
    match c
    case ProbeFault(_) => r.service
    case Check(_, _, _, _) => CheckedService(r, c, now)
    case Echo => r.service
    case EnterStopIntent =>
      WithIntent(r.service.(maintenance := true, lastServiceActive := Some(true), lastServiceCheckAt := Some(now)),
                 Some(StopMaintenance), now)
    case ExitStartIntent =>
      WithIntent(r.service.(lastServiceActive := Some(false), lastServiceCheckAt := Some(now)),
                 Some(StartMaintenance), now)
    case OperatorIntent => WithIntent(r.service, Some(StartOperator), now)
    case Settle(how, _) => Settled(r.service, r.service.pendingAction.value, how, now)
    case Finish(command, look, _) => Finished(r.service, command, look, now)
    case Rearm(active) =>
      r.service.(manualOverride := false, lastServiceActive := Some(active), lastServiceCheckAt := Some(now))
  }

  function ProbingWritten(r: Row, c: Cause, now: int): Probing {
    match c
    case ProbeFault(category) => Probing(Some(now), ProbeError, category)
    case Check(_, reached, _, _) => Probing(Some(now), if reached then Success else Unreachable, NoError)
    case _ => r.probing
  }

  /** The row one commit leaves. */
  function Written(r: Row, c: Cause, now: int): Row
    requires Guard(r, c, now)
  {
    Row(VitalsWritten(r, c, now), ServiceWritten(r, c, now), ProbingWritten(r, c, now))
  }

  /** The events the same commit appends to the log. */
  function Emitted(r: Row, c: Cause, now: int): seq<Event>
    requires Guard(r, c, now)
  {
    match c
    case ProbeFault(category) =>
      if r.probing.checkStatus != ProbeError || r.probing.lastProbeError != category
      then [Note(r.vitals, ProbeFailed, now).(error := category)] else []
    case Check(_, _, seen, _) =>
      BegunEvents(r, now) + ObservedEvents(r, seen, now) + AdvanceEvents(r.vitals, CheckedVitals(r.vitals, c, now), now)
    case Echo | EnterStopIntent | ExitStartIntent | OperatorIntent => []
    case Settle(how, _) => SettledEvents(r.vitals, r.service.pendingAction.value, how, now)
    case Finish(command, _, shown) =>
      if command == EnterKeep || command == EnterStop then
        [Note(r.vitals, MaintenanceEnabled, now).(
           previous := Some(shown), next := Some(MaintenanceShown),
           result := if command == EnterStop then MaintenanceStopped else NoResult)]
      else
        [Note(r.vitals, MaintenanceDisabled, now).(
           previous := Some(shown), next := Some(Shown(r.vitals.health)),
           result := if command == ExitStart then MaintenanceExitStart else MaintenanceExitNoStart)]
    case Rearm(_) => [Note(r.vitals, ManualOverride, now).(result := RearmedResult)]
  }

  // ----- Histories ----------------------------------------------------------------------

  /** Every commit since the profile was first seen, oldest innermost. */
  datatype Trace = Start | Then(past: Trace, cause: Cause, now: int)

  function RowAfter(t: Trace): Row
    requires Legal(t)
    decreases t, 1
  {
    match t
    case Start => FRESH_ROW
    case Then(past, cause, now) => Written(RowAfter(past), cause, now)
  }

  predicate Legal(t: Trace)
    decreases t, 0
  {
    match t
    case Start => true
    case Then(past, cause, now) => Legal(past) && Guard(RowAfter(past), cause, now)
  }

  function LogAfter(t: Trace): seq<Event>
    requires Legal(t)
  {
    match t
    case Start => []
    case Then(past, cause, now) => LogAfter(past) + Emitted(RowAfter(past), cause, now)
  }

  /** `t` is `p` with zero or more later commits. */
  predicate Extends(p: Trace, t: Trace) {
    p == t || (t.Then? && Extends(p, t.past))
  }

  lemma ExtendsTransitive(a: Trace, b: Trace, c: Trace)
    requires Extends(a, b) && Extends(b, c)
    ensures Extends(a, c)
  {
  }
}
