# Verified model of the GOST watchdog and monitoring cores

Two programs share this repository. The *watchdog* probes the upstream of each managed
tunnel profile, keeps a health state machine per profile, and stops or starts the profile's
systemd unit, writing its intent to SQLite before it touches the unit. The *monitoring*
collector stores metric points, folds them into minute rollups, deletes old rows, and answers
queries from whatever is left. This project models the stateful cores of both and proves what
they keep over every run.

`dafny verify dfyconfig.toml` checks all of it.

## How the model is put together

- **Watchdog** (`WatchdogProtocol`, `WatchdogEngine`, `WatchdogTheorems`, `WatchdogMeaning`,
  `Downtime`). The
  durable side is event-sourced: a `Trace` is the list of committed transactions, each with the
  answers the outside world gave for it; `RowAfter` and `LogAfter` are the row and the event
  log it leaves. `WatchdogEngine.Watchdog` is the code: fields changed step by step, with
  `Persist` and every systemctl call free to succeed, to raise, or to end the process
  (`Reply`), a crash in a transaction falling on either side of its commit. Its methods are
  proved to write only commits the protocol has, and to raise only when an outside call failed
  or for the refusals that are written out. The theorems are then about every trace, so
  they hold across crashes and lost writes. `WatchdogMeaning` reads health, counters, outage
  and intents off the probe history alone, and says what every other commit leaves.
- **Monitoring queries** (`Series`, `Summaries`, `SummaryMeaning`, `Scans`, `Planner`, `Rollups`,
  `RollupSummaries`, `RollupMeaning`, `Retention`, `Hybrid`). Values are reals, times integers.
  `Retention.World` pairs the tables with every point ever collected, so that "nothing is lost"
  and "the answer is what all the points would have given" can be said. `SummaryMeaning` and
  `RollupMeaning` define every reported figure a second time, second by second or point by point,
  and show that the computed ones are those.
- **History purge** (`Purge`). A directory is a map from names to files; a hard link binds a
  second name, a rename is atomic, and every operation may fail without effect: a script, fixed
  beforehand, says which do. `trail` records every directory state.
- **Smaller pieces**: transition events (`Transitions`), incident resolution (`Incidents`),
  deadlines (`Deadlines`), the socket cache (`SocketCache`), configuration files
  (`Configuration`, `ConfigurationMeaning`).

Hypotheses that are part of statements, because the code relies on them: daemon steps and
operator commands are serial; wall time does not run backwards (downtime, retention); a series
has one unit (what a rollup row folds, full agreement of streaming and batch); a point has no
value exactly when its quality is unavailable (agreement of rollup rows and raw points); rows
arrive ordered by series (streaming scan).

Four properties one might expect are false of the code, and are stated with their exact
condition: a maintenance pass loses points exactly when some stored point lies between the new
watermark and the raw cutoff, which needs a lag above ten hours (`PassIsSound`,
`BatchReachesCutoff`, `LatePassLoses`); a purge with one fault before the point of no return
restores the directory exactly unless the operation that fails is the giving back of a reserved
name (`ReserveUniquePath`, `PurgeHistory`); an empty set of profile settings is rendered as an
empty file that the parser refuses (`ProfileRoundTrip`, `NoSettingsAreAccepted`); value events do
not form a chain when a value appears where there was none and first values are not reported
(`ValuesFormAChain`).

## Model

| member | source | states |
|---|---|---|
| WatchdogEngine.Watchdog.Persist | gost_watchdog/storage.py:296-310 | a transaction commits row and events together or not at all; when it raises nothing changed, and a crash leaves it done or not done |
| WatchdogEngine.Watchdog.Load | gost_watchdog/storage.py:198-207 | every operation starts from the durable row with no event waiting |
| WatchdogEngine.Watchdog.StopUnit | gost_watchdog/commands.py:139-142 | may be called only while the durable row holds a stop intent; issues exactly one stop order, and is true exactly when the unit was then seen inactive |
| WatchdogEngine.Watchdog.StartUnit | gost_watchdog/commands.py:144-147 | may be called only while the durable row holds an intent; issues exactly one start order, and is true exactly when the unit was then seen active |
| WatchdogEngine.Watchdog.IsActive | gost_watchdog/commands.py:132-137 | what systemd attested last is exactly what the query returned, and nothing when it failed |
| WatchdogEngine.Watchdog.FinalizePendingStop | gost_watchdog/engine.py:90-119 | ownership goes to whoever intended the stop, and the event written is the one for that owner |
| WatchdogEngine.Watchdog.FinalizePendingStart | gost_watchdog/engine.py:122-162 | a verified start clears both ownership flags and the override, and writes the event of its kind |
| WatchdogEngine.Watchdog.ReconcilePending | gost_watchdog/engine.py:164-217 | from any crash point: when it returns the row holds no intent and exactly one settling commit was written; if the state query answered, a stop intent leaves an ownership flag, the intending owner's, if and only if systemd attested the unit inactive, else both clear and override set, and a start intent attested active leaves both clear; if it did not, override is set and ownership unchanged; one order is given, exactly if the unit was not as intended; it fails to return only when an outside call failed |
| WatchdogTheorems.ReconciliationResolves | gost_watchdog/engine.py:164-217 | the same of every reconciliation commit in every history, in terms of the attested answers the commit rests on |
| WatchdogTheorems.OwnershipIsVerified | gost_watchdog/engine.py:190-202 | in every history an ownership flag goes back to a commit that settled that owner's stop intent after systemd had attested the unit inactive, and has been set ever since |
| WatchdogTheorems.RecordedMeansAttested | gost_watchdog/engine.py:252-391 | every stop recorded as done was attested inactive, every start and every compensation attested active |
| WatchdogEngine.Watchdog.Stop | gost_watchdog/engine.py:219-313 | the intent commit comes first; when it returns the intent was settled by exactly one further commit on the evidence systemd gave; it is true exactly when the stop was recorded as done, and then the unit was seen inactive; an inactive unit gets no order, any other exactly one stop, and a start after it exactly if the stop had to be undone; it fails to return only when an outside call failed |
| WatchdogEngine.Watchdog.Compensate | gost_watchdog/engine.py:289-313 | when a stop cannot be recorded it never reports success: either the unit was started again, seen active, and that is recorded with ownership given up, or it raises and the row with its intent is as it was |
| WatchdogEngine.Watchdog.StartService | gost_watchdog/engine.py:315-391 | same protocol for starts, with one retry of the recording; false exactly when the start was refused, true exactly when the unit was seen active; one start order exactly if the unit was inactive; it fails to return only when an outside call failed |
| WatchdogEngine.Watchdog.Transition | gost_watchdog/engine.py:420-443 | a transition to another health writes one event naming both ends, one to the same health writes none |
| WatchdogEngine.Watchdog.ReconcileService | gost_watchdog/engine.py:445-491 | looks at the unit only when a look is due, and notes a manual start or stop once |
| WatchdogEngine.Watchdog.StopIfOwnedTransition | gost_watchdog/engine.py:493-502 | acts only in auto mode without maintenance or override, and then carries the whole check through its intent |
| WatchdogEngine.Watchdog.StartAfterRecovery | gost_watchdog/engine.py:504-518 | the same for starts, and only for a stop the watchdog owns |
| WatchdogEngine.Watchdog.CompleteRecovery | gost_watchdog/engine.py:520-535 | closes the outage, reports its length, and ends the check in the prescribed commit |
| WatchdogEngine.Watchdog.SuccessfulCheck | gost_watchdog/engine.py:537-571 | the step-by-step updates of a reached probe amount to the machine's single step, whose meaning `HealthIsExact` gives; only a failed outside call or a jitter out of range keeps it from returning |
| WatchdogEngine.Watchdog.FailedCheck | gost_watchdog/engine.py:573-600 | the step-by-step updates of an unreachable probe amount to the machine's single step, whose counting `HealthIsExact` and `ThresholdActs` give; only a failed outside call keeps it from returning |
| WatchdogEngine.Watchdog.Process | gost_watchdog/engine.py:602-652 | when it returns, this probe result was committed exactly once, after any pending action was settled, and no intent is left; a disabled profile gets no more than that settling; only a failed outside call or a jitter out of range keeps it from returning |
| WatchdogEngine.Watchdog.ReconcileRow | gost_watchdog/engine.py:411-418 | when it returns no intent is left, and only a failed outside call keeps it from returning |
| WatchdogEngine.Watchdog.ApplyMaintenance | gost_watchdog/engine.py:668-737 | when it returns the last commit finishes this command, and the row is in maintenance exactly after the two that enter; after either exit nobody owns a stop; without a start an inactive unit is under override; with a start the unit is recorded active, the override clear and the upstream healthy; only a failed outside call keeps it from returning, or for an exit with start an unhealthy upstream or a unit not seen active |
| WatchdogEngine.Watchdog.StartForExit | gost_watchdog/engine.py:698-713 | leaving maintenance with a start goes on only for a healthy upstream, and starts an inactive unit only if its stop is owned; an unhealthy upstream or an unowned stop raises with nothing committed, and nothing else does but a failed call or a refused start |
| WatchdogEngine.Watchdog.StartOwnedForModeChange | gost_watchdog/engine.py:739-765 | refused, with nothing committed and nothing ordered, unless healthy by a successful check no older than two intervals or ten seconds and stopped by the watchdog; when it returns the operator's intent and its successful settling were committed and the unit was seen active; otherwise an outside call failed or the unit was not seen active |
| WatchdogEngine.Watchdog.RearmOverride | gost_watchdog/engine.py:767-787 | refused exactly without an override, or for a unit seen inactive that the watchdog did not stop, unless an outside call failed; when it returns exactly one rearm commit was added, the override is clear, the owner the same, and the unit recorded as seen |
| WatchdogEngine.Watchdog.Run | gost_watchdog/engine.py:52-787 | any operations, each failing or crashing anywhere: every systemctl order was preceded by a durable intent, a stop by a stop intent, the row is well formed, the log replays to it, and no prefix of the log has more starts than stops |
| WatchdogTheorems.ReachableRowIsStructural | gost_watchdog/engine.py:52-787 | every reachable row: outage start set iff down or recovering, recovery start iff recovering, ready time only while recovering, one counter zero, never both owners, maintenance ownership only in maintenance, intent and its time together, and every intent grounded in the health and flags it needs |
| WatchdogTheorems.LogReplaysToRow | gost_watchdog/engine.py:420-443 | the persisted health events form one chain of allowed edges from unknown that ends at the persisted health |
| WatchdogTheorems.AdvanceTakesEdges | gost_watchdog/engine.py:537-600 | one check stays, takes an edge of the machine, or passes from down through recovering to healthy |
| WatchdogTheorems.OnlyChecksMoveHealth | gost_watchdog/engine.py:655-787 | no other commit moves the health or writes a health event |
| WatchdogTheorems.OwnershipIsBacked | gost_watchdog/engine.py:89-162 | recorded stops exceed recorded starts by at least one while the watchdog owns a stop, and never fall below them |
| WatchdogTheorems.StartsNeverOutnumberStops | gost_watchdog/engine.py:272-285 | in every prefix of the persisted log automatic starts do not outnumber automatic stops |
| WatchdogTheorems.CountersAreObserved | gost_watchdog/engine.py:537-600 | the counters never exceed the runs of consecutive committed results, whatever the thresholds were |
| WatchdogTheorems.StopIsEarned | gost_watchdog/engine.py:573-652 | a stop intent is written only by an unreachable auto-mode check, after at least the threshold's number of consecutive unreachable commits, never in maintenance or under override |
| WatchdogTheorems.ReadyTimeHasAnOrigin | gost_watchdog/engine.py:562-571 | a stored ready time is the hold plus the drawn jitter after the check that met the threshold, with only successes since |
| WatchdogTheorems.RecoveryWaits | gost_watchdog/engine.py:537-571 | an outage ends only after the success threshold was met by consecutive successes, the hold plus jitter later, with no failure in between |
| WatchdogTheorems.UnattendedOwnership | gost_watchdog/engine.py:493-535 | without operator commands, undisputed idle ownership lasts no longer than the outage |
| WatchdogTheorems.StartIsEarned | gost_watchdog/engine.py:504-571 | without operator commands a start intent is written only by the check that completes such a recovery |
| WatchdogMeaning.HealthIsExact | gost_watchdog/engine.py:537-600 | in every history under one configuration, crashes included, health, both counters, outage start, recovery start, ready time and jitter are exactly what the committed probe results say, by definitions on the history alone |
| WatchdogMeaning.ThresholdActs | gost_watchdog/engine.py:582-598 | after the threshold's number of unreachable results in a row the profile is down with that count |
| WatchdogMeaning.RecoveryCompletes | gost_watchdog/engine.py:562-571 | a success at or after the ready moment makes the profile healthy and ends the outage |
| WatchdogMeaning.StopIntentIsExact | gost_watchdog/engine.py:493-502 | the converse of earning it too: a stop intent is written if and only if an unreachable auto check has counted up to the threshold, not while recovering, nor down with the service already stopped, with neither maintenance nor override after the look |
| WatchdogMeaning.StartIntentIsExact | gost_watchdog/engine.py:504-518 | a start intent is written if and only if a reached auto check leaves the profile healthy after an outage, or still healthy, with its service stopped by the watchdog and neither maintenance nor override |
| WatchdogMeaning.StopIsDue | gost_watchdog/engine.py:573-600 | so, under one configuration, the check that completes the run of unreachable results writes the stop |
| WatchdogMeaning.StartIsDue | gost_watchdog/engine.py:520-571 | and the success at or after the ready moment writes the start |
| WatchdogMeaning.LookIsExact | gost_watchdog/engine.py:445-491 | a check looks exactly in auto mode when ten seconds have passed; an owned unit found active loses its owner to the override, an unowned one found inactive comes under override unless it was known inactive, and nothing else moves |
| WatchdogMeaning.TransitionTime | gost_watchdog/engine.py:420-443 | the transition time moves exactly with the health |
| WatchdogMeaning.ProbeIsRecorded | gost_watchdog/engine.py:602-652 | the row records time, result and error of the last probe, and a faulty probe touches nothing else |
| WatchdogMeaning.FinishLeaves | gost_watchdog/engine.py:679-737 | what each finished maintenance command leaves in flags, override, look and transition time, and that it leaves the rest |
| WatchdogMeaning.RearmLeaves | gost_watchdog/engine.py:767-787 | rearming needs an override and an active or owned unit, and changes nothing but the override and the look |
| WatchdogMeaning.CommandIntents | gost_watchdog/engine.py:668-765 | which intent each command writes, with what ownership and health, and that it changes no flag but maintenance |
| WatchdogMeaning.ActionEnds | gost_watchdog/engine.py:164-391 | what each way of settling leaves: done stops set the intending owner, done starts end ownership and override, everything else hands the unit to the operator |
| WatchdogMeaning.EndingsFit | gost_watchdog/engine.py:164-391 | stops end only in the ways of stops and starts in those of starts |
| WatchdogMeaning.SettlementNotes | gost_watchdog/engine.py:89-313 | the code, result and error of every event that settling a stop writes, in order |
| WatchdogMeaning.StartNotes | gost_watchdog/engine.py:122-391 | the same for settling a start |
| WatchdogMeaning.CommandNotes | gost_watchdog/engine.py:602-787 | the same for commands and faulty probes, a repeated fault writing nothing |
| WatchdogMeaning.CheckNotes | gost_watchdog/engine.py:420-535 | the same for a check: end of a probe error, a manual start or stop not known yet, the change of health |
| WatchdogMeaning.OutageLengths | gost_watchdog/engine.py:520-535 | every event carries the time of its commit, and the event that makes a profile healthy the length of the outage it ends |
| Downtime.DowntimeIsExact | gost_watchdog/storage.py:370-411 | the reported intervals are disjoint, their total is the number of seconds of the last 24 hours spent down or recovering, and the cap never binds, whichever older events were pruned |
| Downtime.OutagesAreExact | gost_watchdog/storage.py:383-399 | a second of the last 24 hours lies in a reported interval if and only if the profile was down or recovering at it |
| Downtime.LongestIsLongest | gost_watchdog/storage.py:397-399 | the longest outage is the length of one of the intervals and no interval is longer |
| Downtime.OneIntervalPerEnding | gost_watchdog/storage.py:383-396 | there are as many completed intervals as events that end an outage inside the window |
| Downtime.ReportAddsUp | gost_watchdog/storage.py:383-399 | closed outages plus the open one add up to the down seconds of any window, at every moment after the last commit |
| Downtime.CompletedAreDisjoint | gost_watchdog/storage.py:383-396 | completed outages are disjoint and end before the open one begins |
| Downtime.LogIsSorted | gost_watchdog/storage.py:377-382 | the log is in time order, as the report's queries ask for |
| Downtime.Summarize | gost_watchdog/storage.py:370-411 | the loops compute exactly the intervals of the last 24 hours, their total and longest capped at 24 hours, and the last start |
| Downtime.PruneEvents | gost_watchdog/storage.py:321-347 | of any log, in any order: only expired events are deleted, oldest first, the recent ones keep their place, none is lost otherwise, and none expired is left unless the batch limit was used up |
| Downtime.OldEventsDoNotMatter | gost_watchdog/storage.py:377-389 | events older than the window do not change the report |
| Series.SortSorts | monitoring/query_engine.py:214 | sorting by time gives an ordered permutation |
| Series.SortKeepsSorted | monitoring/query_engine.py:214 | rows already in time order are left as they are |
| Series.ExtremesAreExtreme | monitoring/query_engine.py:263-269 | minimum and maximum are attained by an available value and bound all of them |
| Summaries.WeightedPercentile | monitoring/query_engine.py:79-90 | nothing exactly when no weight is positive; else one of the values, with less than the share of the weight below it and at least the share at or below it |
| Summaries.Segment | monitoring/query_engine.py:114-126 | how long a value stands: from its point or the window start to the next point, no longer than the largest credible gap |
| Summaries.Weigh | monitoring/query_engine.py:270-281 | the weighted list and its total weight |
| Summaries.WeightsAddUp | monitoring/query_engine.py:282-285 | the weights sum to the seconds and the products to the area that the streaming form accumulates |
| Summaries.RawSummary | monitoring/query_engine.py:203-288 | for points in any order, the summary defined on them in time order, with a true 95th percentile of the weighted values |
| Summaries.StreamingSummary.Add | monitoring/query_engine.py:128-190 | after any points, of whatever units, the running fields are the accumulator defined on all of them |
| Summaries.StreamingSummary.CountStats | monitoring/query_engine.py:145-182 | one more point moves every statistic as the batch fold does |
| Summaries.StreamingSummary.Finish | monitoring/query_engine.py:192-200 | whatever the units, agrees with the batch summary on all counts, quality, first, last, latest, expected samples, coverage and age; with one unit also on unit, kind, extremes and average, and for range metrics on weighted seconds; transitions agree when there is a value |
| Summaries.FinishedAgrees | monitoring/query_engine.py:93-288 | for every list of points of one unit the finished accumulator agrees with the batch summary |
| Summaries.FinishedCounts | monitoring/query_engine.py:93-288 | for every list of points, of whatever units, they agree on everything that is merely counted |
| Summaries.CountingCounts | monitoring/query_engine.py:145-189 | the step lemma of that agreement: a point inside the window keeps the running figures equal to the batch figures |
| SummaryMeaning.WeighingMeans | monitoring/query_engine.py:270-285 | weighted seconds are the seconds of the window at which a value stands (that of the last point, if available, for no longer than the largest gap), the area is the sum of the standing values, and the percentile's weights count those seconds |
| SummaryMeaning.AverageMeans | monitoring/query_engine.py:263-288 | for gauges and rates the average is the mean of the standing values and the weighted seconds their number; other metrics have neither |
| SummaryMeaning.PercentileMeans | monitoring/query_engine.py:79-90 | at fewer than 95 of 100 seconds with a value does a lesser value stand, and at 95 or more that value or a lesser one |
| SummaryMeaning.TruncMeans | monitoring/query_engine.py:279 | the end of a segment is cut toward zero |
| SummaryMeaning.CountsMean | monitoring/query_engine.py:229-239 | samples, unavailable points, resets and gaps are those of the points inside the window, added up one by one |
| SummaryMeaning.TimesMean | monitoring/query_engine.py:240-250 | first and last timestamp are attained and bound those inside; the latest value is the last point's |
| SummaryMeaning.ExtremesMean | monitoring/query_engine.py:263-269 | quality is the worst inside; extremes are attained by available numbers inside and bound them, for gauges and rates only |
| SummaryMeaning.QualitiesInOrder | monitoring/models.py:10 | exact is better than derived, that than estimated, that than unavailable |
| SummaryMeaning.ExpectedMeans | monitoring/query_engine.py:219 | the expected samples are the least number, at least one, of cadences that fill the window |
| SummaryMeaning.CoverageMeans | monitoring/query_engine.py:231 | coverage is the share of the expected samples that came, at most all |
| SummaryMeaning.FieldsMean | monitoring/query_engine.py:215-261 | unit, kind, expectation, coverage, age, the numeric flag and transitions of a summary, each by what it is of the points |
| SummaryMeaning.TurnsMean | monitoring/query_engine.py:251-259 | transitions are the changes of value from point to point inside the window |
| Scans.StreamSummaries | monitoring/query_engine.py:623-658 | one ordered scan yields, for exactly the series present, summaries that agree with the batch form of each series' points as streaming and batch do; refused exactly when there are more series than the limit |
| Planner.WatermarkIsCompletedMinute | monitoring/query_db.py:185-205 | a stored watermark is trusted exactly when it is a non-negative whole minute that is already complete, and what is wrong with any other is told |
| Planner.CostAwarePlan | monitoring/query_engine.py:458-582 | the two ranges never overlap and cover exactly the seconds below a valid watermark or inside raw retention (all, without a watermark); refused exactly when the raw part exceeds both row budgets |
| Planner.ModeNamesRanges | monitoring/query_engine.py:555-582 | the mode names the ranges that are there, they lie inside the window in order, and both are absent exactly for a window above the watermark and wholly past raw retention |
| Planner.FetchedMinutesAreWhole | monitoring/query_engine.py:677-689 | a rollup minute is fetched exactly when all of it lies in the rollup range |
| Planner.StreamsWhenNeeded | monitoring/query_engine.py:504-554 | a plan streams its raw part exactly when the rows it would otherwise hold in memory exceed the limits |
| Planner.PlanTells | monitoring/query_engine.py:458-582 | the rows a plan declares are the raw rows there are; its reason is the row budget exactly when raw retention and budget hold the whole window, else it tells a missing, invalid or valid watermark and whether the raw part is streamed |
| Rollups.MetricStore.GroupRows | monitoring/schema.py:801-810 | every row is in the group of its series, minute and unit, each group holds exactly its rows in order, and the groups are listed as they first appear |
| Rollups.MetricStore.WriteRollups | monitoring/schema.py:811-848 | each minute with rows gets the fold of its last group in order of appearance, other rows stay; `FoldMeans` and `RowIsOfLastUnit` say what that is of the points |
| Rollups.OverlaidByMinute | monitoring/schema.py:811-848 | with one unit per series that is the fold of exactly the minute's points |
| Rollups.MetricStore.RollupCompletedMinutes | monitoring/schema.py:767-849 | the pass folds exactly the due minutes and moves the watermark to their end; without points to the last whole minute; with nothing due it changes nothing |
| Rollups.MetricStore.ApplyRetention | monitoring/schema.py:852-863 | exactly the points of more than six hours ago and the rollup rows of more than a day ago are deleted |
| Rollups.MetricStore.RunMaintenance | monitoring/schema.py:866-868 | folding, then retention, at the same time |
| Rollups.FoldDescribes | monitoring/schema.py:821-848 | a row's extremes bound the minute's values and are attained, its average lies between them, its quality is the worst of the points |
| RollupMeaning.FoldMeans | monitoring/schema.py:811-848 | a row's average is the sum of its points' numbers over their count, its counts are those of its points, its expectation the least number of samples, at least one, that fill sixty seconds, and its coverage their share |
| RollupMeaning.SlotMeans | monitoring/schema.py:802-809 | a point belongs to the whole minute it was taken in |
| RollupMeaning.DueMeans | monitoring/schema.py:774-785 | a batch starts at the watermark, or at the first point's minute, and takes all completed minutes up to four hours |
| RollupMeaning.RowIsOfLastUnit | monitoring/schema.py:801-848 | the row left for a minute is the fold of that minute's points of one unit, the last unit to appear |
| Rollups.EarliestIsLeast | monitoring/schema.py:777 | the first timestamp is attained and is the least |
| Retention.FoldKeepsSound | monitoring/schema.py:774-849 | however late it runs, folding leaves every rollup row the fold of all points ever collected in its minute, and no minute below the watermark without its row |
| Retention.PassIsSound | monitoring/schema.py:866-868 | a pass loses nothing if and only if every point it deletes is below the new watermark |
| Retention.BatchReachesCutoff | monitoring/schema.py:783-785 | the batch reaches the raw cutoff if and only if the lag is at most 36,000 s |
| Retention.TimelyPass | monitoring/schema.py:866-868 | from a lag of at most 36,000 s a pass loses nothing and leaves a lag of at most 21,600 s |
| Retention.NothingIsLost | monitoring/schema.py:774-868 | in every run with passes at most 14,400 s apart and a starting lag of at most 36,000 s, every pass starts with at most 36,000 s and no raw point is deleted before it is folded |
| Retention.PointIsAccountedFor | monitoring/schema.py:774-868 | every point ever collected is still stored, or part of the row of its minute and no other row, or past rollup retention |
| Retention.LatePassLoses | monitoring/schema.py:783-785 | a concrete pass eleven hours behind deletes a point it has not folded |
| Retention.CollectKeepsSound | monitoring/collector.py:1742-1806 | points stamped with the cycle's time never land below the watermark and keep the tables sound |
| Retention.Operate | monitoring/collector.py:1742-1806 | the tables, worked by any time-ordered schedule of cycles and passes, follow such a run |
| Retention.OperateNew | monitoring/collector.py:1742-1806 | from a new database on, any time-ordered schedule with punctual passes loses nothing |
| Hybrid.FoldTellsTotals | monitoring/schema.py:821-848 | a rollup row tells the counts and extremes of the points it was folded from |
| Hybrid.RowsTell | monitoring/query_engine.py:291-369 | the rows of any range of folded minutes add up to the totals of all points ever collected there |
| RollupSummaries.RollupSummary | monitoring/query_engine.py:291-369 | the summary of rollup rows: summed counts, extremes and covered-seconds average for range metrics only, worst quality, expected samples with the missing time, coverage, first and last second |
| RollupSummaries.CondensedIsSensible | monitoring/query_engine.py:291-369 | for folded rows something is expected, coverage is a share, the weighted seconds fit the rows' minutes, and the average lies between the minimum and the maximum |
| RollupMeaning.CondensedMeans | monitoring/query_engine.py:308-369 | the average over rows is the mean of their averages weighted by covered seconds, the weighted seconds their sum, for gauges and rates only; the other fields written out |
| RollupMeaning.CoveredMeans | monitoring/query_engine.py:335-341 | a row covers its seconds inside the range in the proportion of its samples that had a value |
| RollupMeaning.ExpectationMeans | monitoring/query_engine.py:302-307 | the expectation is that of the rows and the least number of samples that fill the time without rows |
| RollupMeaning.RowsAddUp | monitoring/query_engine.py:359-364 | the counts are the rows' counts added up |
| RollupMeaning.RowExtremes | monitoring/query_engine.py:345-357 | the extremes are some row's and bound every row's |
| RollupMeaning.WorstRowIs | monitoring/query_engine.py:353 | the quality is some row's and none is worse |
| Hybrid.RollupPartIsSensible | monitoring/query_engine.py:291-369 | so it does for the rows of any range of sound tables |
| Hybrid.PartsCombine | monitoring/query_engine.py:372-440 | combining limited parts, or taking the only one, gives the limited sum of both |
| Hybrid.HybridIsExact | monitoring/query_engine.py:291-582 | for a minute-aligned window that some table answers for throughout, rollup rows plus remaining raw points give the totals of every point ever collected in it |
| Hybrid.Answer | monitoring/query_engine.py:756-799 | the answer for a series under a plan, its raw part streamed or summarised at once as the plan says, is the sum of its rollup rows and its stored points, whatever the seed point |
| Hybrid.StreamRows | monitoring/query_engine.py:633-658 | feeding the rows of a series one by one gives its finished streaming summary |
| Hybrid.DirectSummary | monitoring/query_engine.py:203-288 | the counts and extremes of the batch summary are those totals |
| Hybrid.Ask | monitoring/query_engine.py:597-799 | a planned query on the live tables, streamed or not, reports the counts and extremes that the batch summary of all points ever collected would; no answer means no point in the window |
| Purge.Session.ReserveUniquePath | monitoring/admin_cli.py:209-214 | a name stays behind exactly when it could be reserved but not given back; otherwise the directory is unchanged |
| Purge.Session.HardLink | monitoring/admin_cli.py:217-225 | fails exactly when reserving, giving back or linking fails; the new name reaches the same file; a failed link itself leaves the directory as it was |
| Purge.Session.CreateReplacement | monitoring/admin_cli.py:275-303 | a complete empty database under a new name, or, after a single fault, the directory as it was |
| Purge.Session.Swap | monitoring/admin_cli.py:367-380 | the empty database takes the canonical name while the recovery link still reaches the history; a fault leaves either the state before or the state after the rename |
| Purge.Session.Finish | monitoring/admin_cli.py:382-401 | the last link to the history goes after everything else is in place; a fault leaves a state from which the handler can act |
| Purge.Session.Rollback | monitoring/admin_cli.py:403-419 | when it returns the canonical name and every sidecar reach what they did before; when it fails the history is still reachable |
| Purge.Session.Cleanup | monitoring/admin_cli.py:429-435 | after a verified end every temporary name is gone, otherwise the directory is not touched |
| Purge.Session.PurgeHistory | monitoring/admin_cli.py:325-435 | for every script of failing operations: in every directory state the canonical name is bound to a complete database, every state before the point of no return reaches the history, and from there on the database is empty and its sidecars gone; without a fault it succeeds; success leaves every name as it was but the empty database and the two sidecars gone, and so does one fault after that point; one fault before it leaves the original directory exactly if and only if the operation that failed is not the giving back of a reserved name, and a script that fails just there leads there |
| Purge.NothingLeft | monitoring/admin_cli.py:402-435 | without temporary names the directory is the original one, or the purged one |
| Transitions.EventState.Availability | monitoring/event_state.py:28-39 | the state is stored and an event written for a change, or for a source first seen unavailable |
| Transitions.EventState.OptionalAvailability | monitoring/event_state.py:41-85 | the same for three-state sources, reading older two-state values, and what is stored |
| Transitions.EventState.ValueTransition | monitoring/event_state.py:87-104 | an event carries the previous and the current value of a change |
| Transitions.EventState.Edge | monitoring/event_state.py:106-121 | an event only when a condition becomes active |
| Transitions.EventState.SetTransitions | monitoring/event_state.py:123-146 | one event per member that appeared, then one per member that disappeared, each in alphabetical order |
| Transitions.AvailabilityAlternates | monitoring/event_state.py:28-39 | availability events strictly alternate starting with unavailable, and their number tells the current state |
| Transitions.LastEventTellsState | monitoring/event_state.py:41-85 | the last event determines the state of a source, also across the change from two-state values |
| Transitions.LogTellsChanges | monitoring/event_state.py:28-85 | the log of a source is exactly its changes of state, one event each, with which event for which change: the same state again writes nothing, available is reported differently after unsupported and after failed |
| Transitions.WordsReadAsAvailable | monitoring/event_state.py:28-39 | a plain observation reads any of the three words as available |
| Transitions.OneEventPerRisingEdge | monitoring/event_state.py:106-121 | as many events as rising edges, each written by the observation that rises |
| Transitions.ReplayReconstructs | monitoring/event_state.py:123-146 | replaying the events on the first observed set gives the current set |
| Transitions.ValuesFormAChain | monitoring/event_state.py:87-104 | value events form a chain of real changes from the first value to the current one if and only if no value appeared unreported where there was none |
| Incidents.RequiredEventCodes | monitoring/health.py:47-156 | the newest-first loop with its resolved set reports exactly what the newest eligible event of each identity reports after the overrides, and a code exactly when an event of it is an incident as `VerdictsMean` says |
| Incidents.VerdictsMean | monitoring/health.py:47-156 | with all codes written out: a code is reported if and only if some event of it counts (recent, of a current tunnel, a required service, a host or required source) and is an incident: a failure with no equally new or newer counting event of its kind and name, recoveries included, that no metric refutes; a grave state change, the newest of its unit; a replaced process; another grave event; never a recovery |
| Incidents.Judge | monitoring/health.py:83-152 | one event is reported exactly when it is eligible and its identity unsettled, and settles it either way |
| Incidents.LeadsIfUnresolved | monitoring/health.py:106-135 | the next event is the newest eligible one of its identity exactly when that identity is not in the resolved set |
| Incidents.NewestFirstOrders | monitoring/health.py:74-82 | the stable newest-first order lists every event once, each ahead of those after it |
| Incidents.OlderEventsDoNotMatter | monitoring/health.py:47-156 | inserting anywhere an event strictly older than an eligible one of its identity changes no verdict |
| Deadlines.AdvanceIsNextDeadline | gost_watchdog/daemon.py:35-40 | the closed form is the least deadline, at least one period on, strictly after the current time |
| Deadlines.NextDeadline | monitoring/scheduler.py:201-204 | the loop gives the least such deadline not before the current time, and its extra iterations are the missed count |
| Deadlines.SkippedIsMissed | monitoring/scheduler.py:47-70 | the recorded ceiling-based missed count is the number of deadlines the loop skips |
| Deadlines.RecordedBeforeSkipping | monitoring/scheduler.py:192-204 | a cycle recorded before the loop reads the clock records no more than the loop skips |
| Deadlines.SchedulerTicks | monitoring/scheduler.py:35-44 | each tick is the first deadline after the previous one that is not before the end of its cycle |
| SocketCache.IdentityIsInjective | monitoring/collector.py:1193-1198 | equal identity texts mean the same start mark and the same processes with the same start times, whatever the mark contains |
| SocketCache.IdentityText | monitoring/collector.py:1193-1198 | the text itself: mark, bar, then process and start time by colon, separated by commas |
| SocketCache.Collector.CountStates | monitoring/collector.py:978-985 | per state, the exact number of owned sockets, or nothing if one could not be attributed |
| SocketCache.Collector.ServiceSocketMetrics | monitoring/collector.py:957-1043 | the readings and the cache entry after a cycle, other services untouched |
| SocketCache.CacheIsLastSnapshot | monitoring/collector.py:986-995 | in every run the cache holds exactly what the last remembered full snapshot counted |
| SocketCache.EstimatesAreLastCounts | monitoring/collector.py:996-1016 | between snapshots a count is reported as estimated if and only if the last remembered snapshot counted exactly these processes, and it is that exact count; otherwise it is unavailable |
| SocketCache.CountIsNumberOwned | monitoring/collector.py:978-985 | the count is the number of places in the snapshot that hold a socket of that state owned by one of the processes |
| SocketCache.ReadingsMean | monitoring/collector.py:957-1043 | in every run: an exact value if and only if a snapshot is due, taken, authoritative and attributes every socket of the state, and it is the number owned; an estimated one if and only if none is due or taken and the last remembered snapshot counted the state for these processes, and it is the number owned then; else none |
| Configuration.ReadText | gost_watchdog/config.py:89-108 | the line loop with its early errors computes the defined reading of a text |
| Configuration.ParsedIsValid | gost_watchdog/config.py:111-150 | whatever is accepted is within bounds, with a timeout no longer than the interval |
| Configuration.GlobalRoundTrip | gost_watchdog/config.py:153-154 | every valid global configuration is read back from its rendering as it was |
| Configuration.ReadRenderRead | gost_watchdog/config.py:230-240 | rendering what was read from any accepted text and reading it again gives the same configuration |
| Configuration.ProfileRoundTrip | gost_watchdog/config.py:243-247 | accepted profile settings are read back as they were if and only if there are any |
| Configuration.NoSettingsAreAccepted | gost_watchdog/config.py:243-247 | no settings at all are accepted under every valid global configuration, and rendered as the empty text that is refused |
| ConfigurationMeaning.TextMeans | gost_watchdog/config.py:89-108 | a text is accepted and read as these values if and only if it is not empty, has no null or carriage return, each line gives a different allowed key a clean value, these are all, and no required key is missing |
| ConfigurationMeaning.LinesSplit | gost_watchdog/config.py:93 | a line goes up to the first of the nine characters that end lines |
| ConfigurationMeaning.TimingMeans | gost_watchdog/config.py:111-150 | each of the six keys, by its name, sets its own number within its own bounds or leaves the default, and the timeout does not exceed the interval: accepted if and only if so |
| ConfigurationMeaning.GlobalMeans | gost_watchdog/config.py:127-150 | the global configuration of a set of values, with the keys, the one mode and the defaults written out, both ways |
| ConfigurationMeaning.ProfileMeans | gost_watchdog/config.py:157-186 | the profile configuration likewise; what is left out comes from the global one, and the mode is disabled |
| ConfigurationMeaning.GlobalText | gost_watchdog/config.py:230-240 | the rendered text line by line with literal keys, and that this text is read as the configuration |
| ConfigurationMeaning.ProfileText | gost_watchdog/config.py:243-247 | the rendered settings line by line in the fixed order |

## Left out

- SQL, the schema and its migrations, WAL checkpoints, connections and locks: tables are maps and sequences, a transaction is one step.
- systemctl, ping, procfs and ss: they are answers the model lets be anything; `/proc` readers and text scraping are not part of this model.
- Interleaving of an operator command inside a daemon step: the code reads, changes and writes without holding a transaction, so steps are taken as serial.
- The second settling of a pending action inside `_reconcile_service`: `process` has settled it before, so that branch never runs from there.
- Profile identity in events and rows (profile id, service name, address) and its validation: one profile is modelled at a time.
- Automatic stop, start and failed-action counts of the watchdog report: plain counting of rows.
- The daemon's next-due table, error reporting and probe thread pool.
- Hybrid.HybridIsExact: says nothing about the average, expected samples, coverage, quality, first and last timestamps of a hybrid answer, because rollup rows weigh minutes and raw points weigh seconds, and a lone seed point makes the raw part's quality unavailable; these fields of the combination are not modelled.
- Hybrid.Ask: the catalogue entry of a categorical metric without rows is not modelled.
- Summaries.StreamingSummary.Finish: transition counts of windows with no value, the numeric flag, the weighted seconds of metrics without a range, and with mixed units the kind-dependent figures differ between the two forms by design of the code, so agreement is not claimed for them.
- Rollups.MetricStore.ApplyRetention: sample cycles, raw samples and events have the same cutoff rule and are not modelled; deleting a cycle removes only points of its own time.
- Purge.Session.PurgeHistory: file permissions, symlink and ownership tests are possible failures of a step and nothing more; an operation that fails is taken to have had no effect.
- Redaction of sensitive fields in event details.
- Incidents.RequiredEventCodes: events and metrics are records already; decoding of loosely typed dictionaries is not modelled.
- Configuration.ReadText: which error is reported first, and file access and atomic replacement of the file, are not modelled.
- Metric classification and cadence tables: a summary takes the kind and cadence of its metric as given.
- Floating-point rounding: reals are exact.
- Renderers, command lines, exports and the live view.
