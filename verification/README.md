# A verified model of the O1 adapter's stateful engines

The O1 adapter connects an OCUDU gNB and its O-RU to a management plane over NETCONF and VES. This project
models its stateful engines and exact-arithmetic kernels in Dafny and proves what they promise:

- **the supervised M-plane session** (`Supervision`, `SupervisionSafety`, `SupervisionOutages`, `SupervisionQueue`, `MplaneSession`): the reconnecting
  state machine DISCONNECTED / CONNECTING / SUPERVISED / DEGRADED as a step relation over its wait points,
  an observer that sees only the acts (sessions opened and closed, alarms set and cleared, resets answered,
  starvations), and the session object whose methods refine the steps;
- **the TDD switching-point compiler** (`SymbolTiming`, `TddPattern`, `TddLayout`, `TddAcceptance`): slot/symbol patterns compiled to frame
  offsets in ticks of 1/1.2288 GHz, against a symbol-by-symbol definition of the frame (section 5.3.1 of
  TS 38.211, the common TDD pattern of section 11.1 of TS 38.213);
- **the alarm registry and the O-RU fault mirror** (`AlarmRegistry`, `FaultBridge`, `FaultMirror`,
  `FaultReports`, `FaultBridgeObject`): event-sourced alarm states, and the mirror of an O-RU's faults as a last-write-wins log;
- **the metrics monitor** (`Debounce`, `MetricsMonitor`, `MetricsReports`, `FailureWindows`): the two-sided severity debounce
  against a definition over the whole history, its aggregation into alarms, and the windowed counters;
- **the YAML-to-NETCONF overlay** (`ConfigTree`, `PruneLaws`, `YamlMerge`, `YamlReadBack`, `CellOverlay`,
  `CellProjection`, `CellPaths`, `CellRoundTrip`, `CellStored`, `CellElement`, `SliceDifferentiator`): merge and prune as transformations of marked trees, and
  the round trip of a cell through the overlay, the pruning and the forward projection;
- **PM files, PM objects and the O-RU configuration** (`PmFiles`, `PmBoundaries`, `PmPublishing`, `PmCollector`,
  `PmConvergence`, `PmRequests`, `FullConfig`, `FullConfigPlan`): file rotation under late ticks, the reject-and-retry loop, and the order of the edits of a full configuration.

`Options`, `OrderedDict`, `Decimals` and `Arithmetic` hold what several of them share. An algorithm is stated once as a
function; where the source changes state step by step, a method or a class runs it in that form and its
`ensures` ties the outcome to the function; and what a function computes is pinned by laws that do not name it, in the
data models' own names, numbers and words.

Time is a number of the environment's choosing; a network exchange is an oracle with its possible outcomes.

Where the code and its documentation differ, the model follows the code:

- `src/mplane_session.py:35-37` says DEGRADED exits when a reset is accepted again. An accepted *recovery*
  reset stays in DEGRADED; only an accepted reset that answers a supervision-notification leaves it
  (`SupervisionSafety.DegradedExits`).
- `src/ofh_config_builder.py:556-559` says that with more than one slot per subframe a repetition is not a pure
  translation. At 30 kHz it always is, and otherwise exactly when the period covers whole half-subframes
  (`SymbolTiming.RepetitionTranslatesIff`).
- The guards of the pattern compiler do not look at the sign of the counts: an accepted pattern can compile to a
  list the validator rejects. `TddAcceptance.CompiledIsAcceptableIff` gives the exact condition for every accepted
  pattern, `TddAcceptance.CompiledIsAcceptableIffSymbolsFit` the same in terms of the counts.
- Dropping an object the O-RU rejects drops its name from every group (noted at `src/ru_config.py:540`), so what
  the measurements converge on is what the O-RU supports exactly when no requested name is supported in one group
  and not in another (`PmConvergence.ConvergesOnSupportedIff`, `PmConvergence.SharedNameIsLost`).
- A cycle whose outcome is what it named is not remembered, and the next one asks anew, by the lists it reads then: it
  is rejected exactly when no cycle before it was remembered and the configured set, under the lists now read, holds
  something unsupported (`PmConvergence.LaterCycleIsRejectedIff`). So the objects the O-RU accepted are not always what
  later cycles request: without lists, rejected *default* reception-window objects are forgotten in exactly one case
  (`PmConvergence.NextCycleAcceptedAtOnceIff`, `PmConvergence.ForgottenDefaultsExist`); with lists, which are read anew
  every cycle and non-strictly, a narrowed request that was accepted whole is rejected when the next read fails and the
  configured set does not fit (`PmConvergence.NextCycleAfterFailedRead`, `PmConvergence.FailedReadIsRejected`).
- The windows of PM files tile time; published files do so exactly when no empty window lies between two others
  (`PmPublishing.PublishedTileIffSampled`, `PmPublishing.QuietMinuteLeavesGap`).
- The O-RU's TDD support is read once for the pattern upload and again for its binding, each time non-strictly: when
  only the first read fails, carriers are bound to a pattern never uploaded (`FullConfig.LostUploadDangles`).
- A YAML cell that writes nothing, for example one with only a mangled `plmn`, is pruned away as a whole
  (`CellElement.CellComesBackIff`, `CellElement.MangledPlmnDropsCell`).
- A slice differentiator outside three octets is truncated silently (`SliceDifferentiator.SdComesBackIff`).

## Model

| member | source | states |
|---|---|---|
| `SupervisionSafety.StepKeepsInvariant` | `src/mplane_session.py:214-360` | every step, whatever ends a wait, keeps handles, phases, deadlines and the observer's books in order |
| `SupervisionSafety.RunsKeepInvariant` | `src/mplane_session.py:214-285` | the invariant holds after every run from the initial state |
| `SupervisionSafety.ReachableStatesAreSafe` | `src/mplane_session.py:244-285` | in every reachable state: SUPERVISED means both sessions held and subscribed, both alarms clear and an accepted reset in this cycle later than any starvation; DEGRADED means the supervision alarm raised and the connection alarm clear; `ru_supervised` iff SUPERVISED; at the loop head no handle is held and every session opened was closed once; alarm calls alternate; a session that backs off has the connection alarm raised; the supervision alarm is raised iff a starvation is later than any entry into SUPERVISED; a session stops only when asked to; no starvation sooner than one budget after the last answered reset |
| `SupervisionSafety.DegradedExits` | `src/mplane_session.py:316-360` | DEGRADED becomes SUPERVISED exactly on an accepted reset that answers a notification; otherwise it only ends with the cycle |
| `SupervisionSafety.SupervisedExits` | `src/mplane_session.py:316-360` | SUPERVISED is left only by starvation or with the cycle; a later rejected reset does not leave it |
| `SupervisionSafety.FeedsAnswerNotifications` | `src/mplane_session.py:346-353` | after every run, the session waits for a feeding reset exactly while the notification just taken was a supervision-notification |
| `SupervisionSafety.TakingFeeds` | `src/mplane_session.py:327-353` | a supervision-notification at the head of the queue, before the deadline or overdue, is answered by a reset when taken |
| `SupervisionSafety.DeadlineMovesOnAnswersOnly` | `src/mplane_session.py:565-636` | only an answered reset moves the starvation deadline: to the promised next update plus the guard, if that lies later than the interval and by no more than interval and guard, else to interval plus guard from then; other notifications never do |
| `SupervisionSafety.DrainStep` | `src/mplane_session.py:316-360` | once overdue, each step either drains towards starvation or starves, with a decreasing measure, and loses no queued notification |
| `SupervisionSafety.DrainProgress` | `src/mplane_session.py:316-360` | an overdue session can always take a next step |
| `SupervisionSafety.NothingQuietAfterStarving` | `src/mplane_session.py:327-337` | having starved, the session waits for the recovery reset |
| `SupervisionSafety.DrainsThenStarves` | `src/mplane_session.py:316-360` | overdue with n unrelated notifications queued and no arrivals, DEGRADED is entered after exactly those n were drained, within a bounded number of steps |
| `SupervisionSafety.StarvationIsReached` | `src/mplane_session.py:316-360` | from every overdue wait of the listen loop with only unrelated notifications queued, waiting for one included, some run without arrivals does end in starvation, with exactly the queued notifications drained |
| `SupervisionSafety.QuietRunsEndStarved` | `src/mplane_session.py:316-360` | a run without arrivals can be continued exactly until it has starved |
| `SupervisionSafety.OverdueTakeIsUp` | `src/mplane_session.py:338-345` | in every reachable state an overdue wait for a notification has timed out |
| `SupervisionSafety.CloseSessionsSeen` | `src/mplane_session.py:756-778` | closing the held sessions closes each once, a session shared by both roles included |
| `SupervisionSafety.ResetAnswerPhase` | `src/mplane_session.py:298-360` | how each kind of reset answer changes the phase, by the wait it ends |
| `SupervisionSafety.ResetAnswerDeadline` | `src/mplane_session.py:599-636` | a reset answer that leads to listening sets the deadline, to interval plus guard from now or to the promised next update plus the guard; any other leaves it |
| `SupervisionOutages.LossIsRaisedIff` | `src/mplane_session.py:219-283` | over every run: the connection alarm is raised iff an attempt failed or a cycle ended, without a stop request, since the last completed subscription; a stop during connect raises nothing |
| `SupervisionOutages.UnreachableIsRaised` | `src/mplane_session.py:226-235` | a failed attempt, from the first on, leaves the session DISCONNECTED, backing off, with the connection alarm raised |
| `SupervisionOutages.BackoffEndsInAttempt` | `src/mplane_session.py:219-235` | a backoff that ends without a stop request leads to the next attempt |
| `SupervisionOutages.StopEndsRun` | `src/mplane_session.py:219-285` | once a stop is requested at most eight more waits end, whatever the O-RU does, cycle handlers that keep running aside |
| `SupervisionOutages.StoppedIff` | `src/mplane_session.py:219-285` | a session is stopped iff no wait of it can end any more |
| `SupervisionOutages.ListeningIsEntered` | `src/mplane_session.py:257-268` | the listen loop is entered on an answered reset only: the first of the cycle, or with cycle handlers one sent after they returned; a reset unanswered while they ran ends the cycle instead |
| `SupervisionOutages.KeepaliveComesDue` | `src/mplane_session.py:287-296` | the keepalive falls due half the interval, kept between 0.05 and 150 seconds, after the last one or after listening began |
| `SupervisionOutages.ListenHeadLeads` | `src/mplane_session.py:321-345` | where the head of the listen loop leads: out on a stop or a dropped session, to a due keepalive, to a look without waiting when overdue, else to a wait of at most the poll cap |
| `SupervisionOutages.StarvesAgain` | `src/mplane_session.py:733-742` | starving again while DEGRADED enters no phase and raises no alarm a second time |
| `SupervisionQueue.NotificationsInOrder` | `src/mplane_session.py:327-360` | within a cycle, over every run: the notifications taken and those waiting are those before and the arrivals, in order, none lost or taken twice |
| `MplaneSession.MplaneSession.Resume` | `src/mplane_session.py:214-360` | one step of the session object is the step of the state machine; impossible inputs are refused and change nothing |
| `MplaneSession.MplaneSession.Drive` | `src/mplane_session.py:214-285` | a run of the object is the run of the state machine, up to the first impossible event |
| `MplaneSession.MplaneSession.ResetReturned` | `src/mplane_session.py:565-597` | the object's handling of every reset answer is that of the state machine |
| `MplaneSession.MplaneSession.CloseSessions` | `src/mplane_session.py:756-778` | closes the held handles, a shared one once, and drops both |
| `MplaneSession.MplaneSession.CalledHome` | `src/mplane_session.py:396-434` | a call-home peer without interleave is closed and the attempt fails; one with it serves both roles |
| `MplaneSession.MplaneSession.ConnectAttemptFailed` | `src/mplane_session.py:374-390` | a failed attempt backs off with the connection alarm raised; half a pair is closed first |
| `SymbolTiming.NumerologyIsExact` | `src/ofh_config_builder.py:446-458` | the per-spacing constants are 1/scs and 9/128 of it in ticks, both without rounding |
| `SymbolTiming.StartInClosedForm` | `src/ofh_config_builder.py:519-535` | the sum of the preceding symbol lengths in closed form, by half-subframe |
| `SymbolTiming.BoundaryIsSymbolStart` | `src/ofh_config_builder.py:519-535` | the code's symbol boundary is the sum of the lengths of all preceding symbols |
| `SymbolTiming.SlotEndMeetsNextSlot` | `src/ofh_config_builder.py:519-535` | fourteen symbols into a slot is where the next slot starts |
| `SymbolTiming.StartIsStrictlyIncreasing` | `src/ofh_config_builder.py:519-535` | later symbols start strictly later |
| `SymbolTiming.FrameIsFull` | `src/ofh_config_builder.py:519-535` | the symbols of a frame fill 12288000 ticks exactly |
| `SymbolTiming.RepetitionTranslatesIff` | `src/ofh_config_builder.py:556-559` | a period repeats by pure translation iff it covers whole half-subframes, hence always at 15 and 30 kHz |
| `TddPattern.ComputeSwitchingPoints` | `src/ofh_config_builder.py:538-599` | the loop computes the specified points or the error of the first failing guard, and for non-negative counts every symbol of the frame reads back as prescribed |
| `TddPattern.CompiledPatternIsPrescribed` | `src/ofh_config_builder.py:538-599` | for every accepted pattern with non-negative counts, the last point at or before each symbol's start gives the prescribed direction; points sit on symbol boundaries in order; the list ends with DL at the end of the frame |
| `TddLayout.AcceptedIffLaidOut` | `src/ofh_config_builder.py:567-580` | a pattern without negative counts is accepted iff some row of `period` slots has its downlink slots, at most one special slot of fourteen symbols, and its uplink slots (as many as given, if given), and a frame of a supported spacing is a whole number of such rows |
| `TddLayout.RefusedForFirstViolation` | `src/ofh_config_builder.py:567-580` | for any counts: refused with the first of the five errors whose rule it violates, accepted iff it violates none |
| `TddLayout.PrescribedIsLayout` | `src/ofh_config_builder.py:538-561` | what an accepted pattern prescribes is its layout, slot by slot and symbol by symbol |
| `TddLayout.UplinkSlots` | `src/ofh_config_builder.py:579-580` | the uplink slots given are exactly the last slots of the period, after the downlink and special ones, uplink throughout |
| `TddLayout.CompiledFrameIsLayout` | `src/ofh_config_builder.py:582-599` | reading the compiled list at the start of each symbol of the frame gives that symbol of the layout, period after period |
| `TddAcceptance.CompiledIsAcceptableIff` | `src/ofh_config_builder.py:565-599` | for every accepted pattern, whatever the signs of its counts: the validator accepts the compiled list iff in every repetition the downlink ends no earlier than the period starts and the uplink starts no later than it ends |
| `TddAcceptance.CompiledIsAcceptableIffSymbolsFit` | `src/ofh_config_builder.py:565-599` | for symbol counts less than a slot below zero: iff the downlink symbols are not negative in all and the special slot, if any, does not start its uplink past the period |
| `TddAcceptance.BoundaryOrder` | `src/ofh_config_builder.py:519-535` | a boundary counted from another slot by less than a slot beyond either end is in the order of its symbols |
| `TddAcceptance.NegativeCountsEscapeTheGuards` | `src/ofh_config_builder.py:565-580` | a negative count passes every guard; the compiled list starts before the frame and the validator rejects it |
| `TddAcceptance.NegativeCountsCanFit` | `src/ofh_config_builder.py:565-599` | a pattern with a negative count whose list the validator accepts |
| `TddAcceptance.FarCountsMissPrefixes` | `src/ofh_config_builder.py:519-535` | a pattern whose symbols fit and whose list is rejected all the same: far beyond a slot the boundary misses long prefixes |
| `TddPattern.ValidateSwitchingPoints` | `src/ofh_config_builder.py:608-666` | accepts a list iff it is acceptable entry by entry and pair by pair, returns it normalised, and otherwise names what is wrong with the first entry that is not |
| `TddPattern.OneFirstOffender` | `src/ofh_config_builder.py:623-666` | there is one such entry |
| `TddPattern.OffenceStandsFor` | `src/ofh_config_builder.py:623-666` | the error reported is right about the first offending entry, and about an earlier one where it names a pair |
| `TddPattern.AcceptableIff` | `src/ofh_config_builder.py:608-666` | acceptable iff every entry is a mapping with a direction, an offset within 0 to 12288000 and no id or one within 0 to 65535, offsets do not decrease, and ids are on all entries or none and distinct |
| `TddPattern.CompiledPatternValidates` | `src/ofh_config_builder.py:623-666` | the validator accepts every compiled list with non-negative counts, unchanged |
| `AlarmRegistry.SectionKeepsEventSourcing` | `src/alarm_manager.py:126-239` | each locked section keeps every alarm's state told by its events |
| `AlarmRegistry.ChangeKeepsEventSourcing` | `src/alarm_manager.py:162-239` | a change of one alarm together with its event keeps the chain of every alarm |
| `AlarmRegistry.RunsAreEventSourced` | `src/alarm_manager.py:126-239` | for any interleaving of sections: the events of each alarm chain from CLEARED, the last agrees with severity and active flag, an inactive alarm is CLEARED |
| `AlarmRegistry.EventIffChange` | `src/alarm_manager.py:162-239` | a section that emits nothing leaves every registered alarm as it was; one that emits changes that alarm only, and truly |
| `AlarmRegistry.RegisterTakes` | `src/alarm_manager.py:126-139` | an alarm registered anew is clear; one registered already is left alone |
| `AlarmRegistry.SetTakes` | `src/alarm_manager.py:148-200` | a set leaves the alarm active as given, an omitted severity or trend as the definition has it, announced iff it was not so before |
| `AlarmRegistry.ClearTakes` | `src/alarm_manager.py:202-240` | a clear leaves the alarm inactive and CLEARED, announced iff it was not cleared with just these before |
| `AlarmRegistry.AlarmManager.Register` | `src/alarm_manager.py:126-139` | registers once; a second registration is refused and changes nothing |
| `AlarmRegistry.AlarmManager.SetAlarm` | `src/alarm_manager.py:148-200` | one set section and one notification iff the state changed, even when the notifier fails |
| `AlarmRegistry.AlarmManager.ClearAlarm` | `src/alarm_manager.py:202-239` | one clear section and one notification iff the alarm was active, even when the notifier fails |
| `AlarmRegistry.AlarmManager.Emit` | `src/alarm_manager.py:272-282` | hands over one event and reports whether the notifier failed |
| `FaultMirror.NotifyKeepsSynced` | `src/ru_fm_bridge.py:142-208` | a live notification keeps mirror and registry in sync |
| `FaultMirror.NotifyIsLastWrite` | `src/ru_fm_bridge.py:142-179` | a notification overwrites what is mirrored for its fault and source, and nothing else |
| `FaultMirror.NotifyKeepsTidy` | `src/ru_fm_bridge.py:142-179` | no source is held twice and no fault without a source |
| `FaultMirror.CollectIsLastWrite` | `src/ru_fm_bridge.py:98-140` | the active-alarm-list is read last-write-wins; cleared entries are residue, not clears |
| `FaultMirror.ResidualClearIsIgnored` | `src/ru_fm_bridge.py:98-140` | a cleared entry of the list changes nothing |
| `FaultMirror.RaiseAndClear` | `src/ru_fm_bridge.py:98-140` | raising what is reported and clearing what is stale settles every fault-id |
| `FaultMirror.ReconcileSyncs` | `src/ru_fm_bridge.py:98-140` | from any bridge state over any live registry, the active ids from 4000 become exactly the listed uncleared faults |
| `FaultMirror.SyncedAlarmAggregates` | `src/ru_fm_bridge.py:181-190` | in sync, an alarm is active iff some source is mirrored, at the most severe of them |
| `FaultMirror.MirrorRefinesLog` | `src/ru_fm_bridge.py:98-208` | after a reconciliation and any notifications, a fault and source is mirrored iff its last report was not a clear, with that report's severity, and the alarm aggregates its sources |
| `FaultMirror.CollectTwice` | `src/ru_fm_bridge.py:232-243` | collecting the same list again, differing in event-times only, gives the same reports in the same order |
| `FaultMirror.SecondReconcileIsSilent` | `src/ru_fm_bridge.py:98-140` | a second reconciliation with the same list changes nothing and emits no event |
| `FaultReports.MirrorHoldsLastSaid` | `src/ru_fm_bridge.py:98-244` | over any run of cycles and notifications of a new bridge, over any registry: the report held of a fault and source is, in every leaf, what was last said since it was last cleared or unlisted, with the event-time at which that was first said |
| `FaultReports.RunsStaySynced` | `src/ru_fm_bridge.py:98-179` | from its first cycle on the bridge is in sync, whatever came before it |
| `FaultReports.AlarmTellsLastSaid` | `src/ru_fm_bridge.py:181-190` | then an alarm is active iff some source was last said to have the fault, at the worst severity last said, with the message and details rendered from the reports held |
| `FaultReports.SeveritiesInOrder` | `src/ru_fm_bridge.py:30-37` | CRITICAL, MAJOR, MINOR, WARNING in that order, and any other literal INDETERMINATE after them |
| `FaultReports.FaultIdsFit` | `src/ru_fm_bridge.py:283-290` | an alarm whose fault-id does not fit sixteen bits is ignored |
| `FaultReports.TiesByName` | `src/ru_fm_bridge.py:183-184` | among the most severe sources the one whose name sorts first leads |
| `FaultReports.TextLessIff` | `src/ru_fm_bridge.py:183` | names sort by their first difference, a prefix first |
| `FaultReports.FirstSightRegisters` | `src/ru_fm_bridge.py:192-208` | a fault is registered at 4000 plus its id with its leading report's type, EQUIPMENT unless it is one of the ten, and severity; an existing definition stays |
| `FaultReports.UnlistedIsRetired` | `src/ru_fm_bridge.py:114-139` | an active fault no longer listed is cleared with the retirement message |
| `FaultReports.LastClearanceIsTold` | `src/ru_fm_bridge.py:168-175` | the last source's clearance is announced with its own text and details |
| `FaultBridge.Leading` | `src/ru_fm_bridge.py:245-281` | the report an alarm is shown by is among its sources and none is more severe |
| `FaultBridgeObject.RuFaultBridge.EnsureRegisteredFault` | `src/ru_fm_bridge.py:192-208` | registers a fault's alarm on first sight only |
| `FaultBridgeObject.RuFaultBridge.RaiseFault` | `src/ru_fm_bridge.py:181-190` | the object's raise is the specified one, whether or not the notifier fails |
| `FaultBridgeObject.RuFaultBridge.HandleAlarm` | `src/ru_fm_bridge.py:142-179` | a live notification has the specified effect on bridge and registry, whether or not the notifier fails |
| `FaultBridgeObject.RuFaultBridge.HandleCycle` | `src/ru_fm_bridge.py:98-140` | a cycle reconciles with the list, and does nothing when the O-RU gives none |
| `Debounce.DebounceRefinesHistory` | `src/metrics_monitor.py:386-423` | for every sequence of readings and any limits, the stored condition holds what the history definition says |
| `Debounce.ChangesIffShifted` | `src/metrics_monitor.py:386-423` | a reading changes the severity iff the last N readings since the previous change all lie strictly on one side of it, and it moves to the closest of them |
| `Debounce.ChangesAreSpaced` | `src/metrics_monitor.py:386-423` | a change up (down) comes at least raise (clear) readings after the change before it |
| `Debounce.ClosestIsClosest` | `src/metrics_monitor.py:408-415` | the run remembers a reading of it that none of the run is closer than |
| `MetricsMonitor.HighestIsHighest` | `src/metrics_monitor.py:425-437` | the alarm's severity is one of its conditions' and none is higher |
| `MetricsMonitor.UpdateKeepsAggregated` | `src/metrics_monitor.py:386-437` | a report keeps every alarm the maximum of its conditions; a severity change emits at most one event, any other report none |
| `MetricsMonitor.RunsAggregate` | `src/metrics_monitor.py:386-437` | the aggregation holds after any reports |
| `MetricsMonitor.ConditionsFollowReadings` | `src/metrics_monitor.py:386-423` | each condition is the debounce of its own source's readings, whatever else is reported |
| `MetricsMonitor.AlarmFollowsHistory` | `src/metrics_monitor.py:386-437` | after any reports, an alarm is active iff some source's history holds a severity, at the highest of them |
| `MetricsReports.AsIsFollowsLastReports` | `src/metrics_monitor.py:273-282` | an alarm reported with one report to raise and to clear, as a lost AMF connection is, follows the last reports of its sources at once, whatever limits are configured |
| `MetricsReports.ChangeTellsActive` | `src/metrics_monitor.py:425-437` | after a change the alarm tells exactly the active sources with their messages, or that all is normal |
| `MetricsReports.LevelsInOrder` | `src/metrics_monitor.py:30-36` | the severities rank from clear over WARNING, MINOR and MAJOR to CRITICAL |
| `MetricsMonitor.MetricsMonitor.Feed` | `src/metrics_monitor.py:386-423` | the object's update is the specified one, even when the notifier fails |
| `MetricsMonitor.MetricsMonitor.Sync` | `src/metrics_monitor.py:425-437` | the alarm is brought in line with its conditions by one section |
| `FailureWindows.CumulativeFailures.Add` | `src/metrics_monitor.py:106-126` | the pending window grows by the increase per cause and is handed over iff it holds the quorum of attempts |
| `FailureWindows.RunsConserve` | `src/metrics_monitor.py:106-126` | between baselines, attempts in handed-over windows plus the pending one equal last minus baseline; each handed-over window holds the quorum and the pending one less; failures per cause exceed the increase by what the count dropped |
| `FailureWindows.NoDropsIffNeverFalls` | `src/metrics_monitor.py:115-126` | the failures of a cause telescope exactly when its count never falls |
| `FailureWindows.Quorum` | `src/metrics_monitor.py:115-126` | a window is judged on the configured number of attempts, and on at least one, so no ratio divides by zero |
| `FailureWindows.TotalTakesAny` | `src/metrics_monitor.py:365-375` | the failure total does not depend on the order of the causes |
| `FailureWindows.FailureBreach` | `src/metrics_monitor.py:364-375` | the verdict on a window: none within the allowance, CRITICAL when nothing succeeded, else MAJOR |
| `FailureWindows.VerdictIff` | `src/metrics_monitor.py:375-386` | no breach iff the failures are within the allowed share of the attempts; beyond it CRITICAL iff nothing succeeded, else MAJOR |
| `FailureWindows.CheckFailures` | `src/metrics_monitor.py:341-362` | baseline on the first report or a restart; a verdict exactly when a full window is handed over |
| `ConfigTree.PruneKeepsWrites` | `src/yaml_to_netconf.py:629-665` | pruning drops no write and no name on the way to one, and keeps their order |
| `ConfigTree.NothingWritten` | `src/yaml_to_netconf.py:596-604` | the search for a write succeeds iff there is one |
| `PruneLaws.PruneIsWithin` | `src/yaml_to_netconf.py:629-665` | pruning only takes away, and never a namespace or list key of what stays |
| `PruneLaws.PruneIsMinimal` | `src/yaml_to_netconf.py:629-665` | extensions are left with writes, namespaces, list keys and what leads to a write; so are the objects |
| `PruneLaws.PruneIsGreatest` | `src/yaml_to_netconf.py:629-665` | where lists are keyed throughout or not at all, every minimal part of the tree is part of the pruned tree: nothing more is dropped than must be |
| `PruneLaws.FixedIffMinimal` | `src/yaml_to_netconf.py:629-665` | pruning leaves a tree alone iff it is minimal |
| `PruneLaws.PruneIsIdempotent` | `src/yaml_to_netconf.py:629-665` | pruning twice is pruning once |
| `PruneLaws.GetPruned` | `src/yaml_to_netconf.py:629-665` | each child is kept, pruned or dropped by itself |
| `PruneLaws.KeptNames` | `src/yaml_to_netconf.py:629-645` | exactly the namespaces and the eight list keys stay with whatever holds them |
| `PruneLaws.LeafGoesIff` | `src/yaml_to_netconf.py:629-665` | an unwritten leaf goes iff it is inside an extension |
| `PruneLaws.ElementGoesIff` | `src/yaml_to_netconf.py:629-665` | an unwritten element goes iff nothing in it was written and it is of an extension or has an id |
| `PruneLaws.ListGoesIff` | `src/yaml_to_netconf.py:655-663` | a list of an extension, or with an NRM object among its entries, keeps as many entries as hold a write and goes without any; any other keeps all |
| `YamlMerge.Merge` | `src/yaml_to_netconf.py:178-212` | the recursive merge with its loops assigns the specified child |
| `YamlMerge.MergeEach` | `src/yaml_to_netconf.py:190-196` | a mapping is merged field by field onto what is there |
| `YamlMerge.MergeIsLawful` | `src/yaml_to_netconf.py:178-212` | at every path: off the YAML what was there, along it an element with its old mark and the mapping merged onto its children, at a leaf or list that value marked, past one nothing |
| `YamlMerge.ScalarsReadBack` | `src/yaml_to_netconf.py:212` | reading any scalar's path after the merge yields its text |
| `YamlReadBack.MergeTells` | `src/yaml_to_netconf.py:178-212` | whatever was there before, every scalar, list and record of the YAML can be read back off the merged tree, in order and at every depth |
| `YamlReadBack.ListingReadsBack` | `src/yaml_to_netconf.py:206-209` | a list of scalars replaces a leaf-list element by element, and anywhere else is one leaf in brackets |
| `YamlReadBack.JoinedSplitsIff` | `src/yaml_to_netconf.py:208-209` | cutting such a leaf at every comma and blank gives the elements in order iff none of them holds a comma and blank itself |
| `YamlReadBack.RecordsReadBack` | `src/yaml_to_netconf.py:198-205` | a list of mappings becomes that many elements, each with its record and nothing else |
| `YamlReadBack.ScalarsAreSpelled` | `src/yaml_to_netconf.py:136-140` | truth values in lower case, integers in decimal, strings as they are |
| `YamlMerge.RecordedWrites` | `src/yaml_to_netconf.py:168-212` | the recorded writes are the YAML's leaves and lists, and the earlier ones not under them |
| `YamlMerge.MergeWritesIffLeaf` | `src/yaml_to_netconf.py:168-212` | a merge onto a tree without writes writes something iff the YAML has a leaf or list |
| `YamlMerge.MergeIsIdempotent` | `src/yaml_to_netconf.py:178-212` | merging the same value twice is merging it once, marks and order included |
| `YamlMerge.MergeKeepsWellKeyed` | `src/yaml_to_netconf.py:178-212` | names stay distinct at every level |
| `CellOverlay.OverlayField` | `src/yaml_to_netconf.py:232-261` | each branch of the cell overlay amounts to merging one tree |
| `CellOverlay.OverlayOfh` | `src/yaml_to_netconf.py:215-224` | the OFH overlay amounts to merging the translated fields onto its container |
| `CellOverlay.OverlayCell` | `src/yaml_to_netconf.py:227-264` | the whole cell overlay is those merges in order |
| `CellOverlay.TreeKeepsShape` | `src/yaml_to_netconf.py:237-259` | the overlay never adds a base leaf or a PLMN element it tests for |
| `CellProjection.ExtractDuCell` | `src/netconf_to_yaml.py:238-482` | the projected cell holds, key by key, what the specification says, standard attributes overriding |
| `CellProjection.ExtractOfhCell` | `src/netconf_to_yaml.py:255-266` | the OFH counterpart holds, key by key, the translated leaves, and is absent with its container |
| `CellProjection.CopySection` | `src/netconf_to_yaml.py:272-278` | a channel's loop copies its container key by key |
| `CellProjection.AddBase` | `src/netconf_to_yaml.py:458-464` | the base loop sets every base leaf, a subcarrier spacing as its digits |
| `CellElement.CellComesBackIff` | `src/yaml_to_netconf.py:651-665` | the NRCellDU element comes back iff the YAML cell writes something, by key what that takes, and then with its overlaid and pruned attributes |
| `CellElement.OverlaidWritesIff` | `src/yaml_to_netconf.py:227-264` | the overlay leaves a write iff one of the YAML cell's keys lands somewhere or its OFH counterpart has a leaf; no later key undoes it |
| `CellElement.ListedLikeAlone` | `src/yaml_to_netconf.py:655-663` | in a list a cell is kept or dropped as it would be alone, whatever surrounds it, the entries around it likewise, and the list goes when nothing of it is left |
| `CellElement.StandardAttributeComesBack` | `src/yaml_to_netconf.py:233-234` | a standard attribute of a cell that writes something comes back as the YAML's text, or as the scaffold has it; else the cell is gone |
| `CellElement.EnabledComesBack` | `src/yaml_to_netconf.py:235-236` | such a cell comes back enabled iff the YAML's value is true, or as the scaffold has it |
| `CellElement.PlmnComesBack` | `src/yaml_to_netconf.py:156-165` | such a cell's PLMN string of at least four characters comes back whole; otherwise the scaffold's stays |
| `CellElement.MangledPlmnDropsCell` | `src/yaml_to_netconf.py:237-244` | a cell whose only key is a PLMN mangled to a number is dropped |
| `CellRoundTrip.LeftoverComesBack` | `src/yaml_to_netconf.py:250-261` | a leftover scalar with a base leaf comes back, a subcarrier spacing as its digits; with one that does, the container's namespaces and list keys come along; no other key does |
| `CellRoundTrip.DigitsAreAll` | `src/netconf_to_yaml.py:460-461` | text equals its digits, as which a subcarrier spacing comes back, iff it holds nothing else |
| `CellRoundTrip.DecimalIsDigits` | `src/yaml_to_netconf.py:259` | every natural number is all digits |
| `CellRoundTrip.ChannelComesBack` | `src/yaml_to_netconf.py:248-249` | a channel comes back iff the YAML has a leaf in it, with the YAML's keys and values merged and pruned, but for pattern2 of tdd_ul_dl_cfg and rv_sequence of pdsch and pusch, and besides only namespaces and list keys; one that is no mapping cannot be projected |
| `CellRoundTrip.OfhScalarComesBack` | `src/netconf_to_yaml.py:255-266` | what each OFH scalar comes back as: the bfp and STATIC/DYNAMIC inverses, else its text |
| `CellRoundTrip.OfhScalarIsKeptIff` | `src/yaml_to_netconf.py:215-224` | exactly which OFH scalars come back unchanged |
| `CellRoundTrip.NoOtherOfh` | `src/netconf_to_yaml.py:255-266` | no OFH leaf comes back that the YAML does not carry, and none at all without an OFH counterpart |
| `CellRoundTrip.ConfigIsProjectableIff` | `src/yaml_to_netconf.py:227-264` | a configuration built over a complete scaffold can be projected iff the YAML's channels are mappings |
| `CellStored.AttributeStored` | `src/yaml_to_netconf.py:232-234` | pci, tac, dl_arfcn and channel_bandwidth_MHz are stored as nRPCI, nRTAC, arfcnDL and bSChannelBwDL |
| `CellStored.StateStored` | `src/yaml_to_netconf.py:235-236` | administrativeState is LOCKED for a false, zero or empty value and UNLOCKED for any other |
| `CellStored.PlmnStored` | `src/yaml_to_netconf.py:237-247` | the first three characters of a PLMN are stored as mcc, the rest as mnc |
| `CellStored.BaseStored` | `src/yaml_to_netconf.py:250-262` | a leftover scalar is stored in a base leaf the scaffold has, a subcarrier spacing with KHZ_ before it |
| `CellStored.OfhStored` | `src/yaml_to_netconf.py:215-224` | bfp is stored as BLOCK_FLOATING_POINT, a static header switch as STATIC or DYNAMIC, any other scalar as its text |
| `CellStored.ChannelStored` | `src/yaml_to_netconf.py:248-249` | each key of the thirteen channels is stored in the channel's container with its value |
| `CellStored.SectionsAreCopied` | `src/netconf_to_yaml.py:271-400` | for any configuration, a channel's section has every key of its container with its node but pattern2 of tdd_ul_dl_cfg and rv_sequence of pdsch and pusch |
| `CellStored.ChannelKeyComesBack` | `src/yaml_to_netconf.py:248-249` | a key of a channel, but for these three, comes back with its value: a scalar's text, a list in order, a list of mappings record by record |
| `CellStored.StandardKeysAreRead` | `src/netconf_to_yaml.py:466-480` | the standard keys are read from their attributes; enabled iff there is a state and it is not LOCKED |
| `CellStored.OfhIsRead` | `src/netconf_to_yaml.py:260-268` | an OFH leaf is read back as bfp, true or false, or as it is |
| `CellStored.OfhListIsRead` | `src/netconf_to_yaml.py:260-268` | likewise a leaf-list or an element, by its entries or the names of its children |
| `CellStored.MeansTrueIff` | `src/yaml_to_netconf.py:221-223` | a switch is on iff its text is the word true in any case |
| `CellStored.ContainsIff` | `src/yaml_to_netconf.py:219-221` | a word is in a key iff some part of the key is the word |
| `SliceDifferentiator.SdComesBackIff` | `src/yaml_to_netconf.py:143-153` | parsing the octets of a differentiator gives it back iff its digits and sign fit six characters; hence for all of 0 to 2^24-1 |
| `SliceDifferentiator.OctetsJoin` | `src/netconf_to_yaml.py:28-32` | dropping the separators leaves the first six characters |
| `SliceDifferentiator.OctetsAre` | `src/yaml_to_netconf.py:143-153` | a differentiator of three octets is written as those, two hexadecimal digits each, the highest first, with colons between |
| `SliceDifferentiator.DigitsAre` | `src/netconf_to_yaml.py:28-32` | the hexadecimal digits read, in either case |
| `PmFiles.NextBoundaryInSeconds` | `src/pm_files.py:21-23` | the boundary is the next multiple of the period |
| `PmFiles.BoundaryIsAfter` | `src/pm_files.py:21-23` | it lies after now, by at most a period |
| `PmFiles.ShorterComesFirst` | `src/pm_files.py:21-23` | when granularity divides the file period, the next period end is never past the next file end |
| `PmBoundaries.BoundaryIsFirst` | `src/pm_files.py:21-23` | the boundary is the first multiple of the period after now |
| `PmBoundaries.RunsKeepBoundaries` | `src/pm_files.py:111-130` | over every run, for any periods and late ticks: the open period and file end at the first multiples of theirs after the last tick, every closed one ended on a multiple, and closed periods hold samples |
| `PmBoundaries.SyncStartsOver` | `src/pm_files.py:88-109` | after a synchronisation exactly the active jobs are collected; one with unchanged periods as it was, any other from now with nothing gathered |
| `PmFiles.RunsTileAndConserve` | `src/pm_files.py:77-133` | of one job, under any samples and late, non-decreasing ticks: windows tile time, each sample is in exactly one of buffer, pending period and file, in order; and when granularity divides the file period, periods end within their window with increasing ends |
| `PmFiles.PublishedHoldAllSamples` | `src/pm_files.py:125-132` | skipping empty windows loses no sample |
| `PmPublishing.PublishedTileIff` | `src/pm_files.py:125-132` | published files tile time iff no empty window lies between two that are not |
| `PmPublishing.RunsPublishTilesIff` | `src/pm_files.py:111-133` | the same of every run of a job |
| `PmPublishing.FilledIffSampled` | `src/pm_files.py:118-127` | when granularity divides the file period, a window holds a period iff a sample was added between the ticks that close the window before it and it |
| `PmPublishing.PublishedTileIffSampled` | `src/pm_files.py:111-133` | hence published files tile time iff no window without a sample lies between two with one |
| `PmPublishing.QuietMinuteLeavesGap` | `src/pm_files.py:128-132` | a run of three minutes whose published files leave a gap |
| `PmCollector.RunsTell` | `src/pm_files.py:77-133` | for every interleaving of reports, synchronisations and ticks over any jobs: each job is the run of its own operations since its last start |
| `PmCollector.CollectorRunsTileAndConserve` | `src/pm_files.py:77-133` | hence every job of a collector run tiles time and conserves its samples since its last start |
| `PmCollector.TickPublishes` | `src/pm_files.py:123-130` | what a tick publishes of a job is what its own run publishes next |
| `PmCollector.Perform` | `src/pm_files.py:77-133` | one call on the collector leaves the specified jobs, and a tick hands over exactly the specified files |
| `PmCollector.Drive` | `src/pm_files.py:111-133` | a run of calls on a new collector leaves the specified jobs |
| `PmFiles.PmFiles.AddSamples` | `src/pm_files.py:77-86` | samples of a known job are buffered per key in order; others are dropped |
| `PmFiles.PmFiles.SyncJobs` | `src/pm_files.py:88-109` | inactive jobs go, new or changed ones start over, others stay as they are |
| `PmFiles.PmFiles.TickJobs` | `src/pm_files.py:111-133` | every job ticks, and exactly the due, non-empty windows are published |
| `PmConvergence.ConfigurePerfMeasurement` | `src/ru_config.py:517-555` | the loop computes the specified outcome and number of attempts |
| `PmConvergence.AttemptsAreBounded` | `src/ru_config.py:517-555` | at most one attempt per distinct requested object |
| `PmConvergence.ConvergesOnEverywhere` | `src/ru_config.py:517-555` | if every rpc-error names some requested objects that a group requesting them does not support, and no other, the result is the request narrowed to the names supported in every group that requests them, in order |
| `PmConvergence.ConvergesOnSupportedIff` | `src/ru_config.py:517-555` | the result is exactly what the O-RU supports, group by group, iff no requested name is supported in one requesting group and unsupported in another |
| `PmConvergence.SharedNameIsLost` | `src/ru_config.py:539-546` | TEMPERATURE, supported for transceivers only and requested for both groups, is dropped from both |
| `PmConvergence.TellingIsHonest` | `src/ru_config.py:69-78` | for any support there is an O-RU whose rpc-errors are as assumed |
| `PmConvergence.AcceptedAtOnceIffSupported` | `src/ru_config.py:517-555` | the first attempt is accepted iff every object is supported in every group that requests it |
| `PmConvergence.RuPmBridge.Configure` | `src/ru_pm_bridge.py:277-317` | one cycle: narrow by the capabilities, converge, remember the outcome |
| `PmRequests.RequestWithoutLists` | `src/ru_config.py:469-500` | without lists the configured groups are requested as they are, and of the others the nine reception-window counters alone |
| `PmRequests.RequestUnderLists` | `src/ru_pm_bridge.py:199-241` | under lists a group not configured requests all that is advertised, a configured one those of its objects that are, in its order; the cycle is skipped iff nothing is left |
| `PmRequests.KeepSplits` | `src/ru_pm_bridge.py:224-227` | restricting keeps or drops each object by itself, in order |
| `PmRequests.ConvergeEnds` | `src/ru_config.py:517-555` | whatever the O-RU answers: what is active was accepted whole on the last attempt and is the request with some names dropped; what is raised named nothing requested or was lost; nothing is active only if all was dropped or the edit was skipped |
| `PmConvergence.NotRememberedIff` | `src/ru_pm_bridge.py:303-317` | exactly when the outcome equals what the config named already |
| `PmConvergence.CycleLeavesOrRemembers` | `src/ru_pm_bridge.py:294-317` | a cycle leaves the config as it is iff nothing it requests is supported wherever requested or the outcome is what was named; otherwise the config becomes what was converged on |
| `PmConvergence.RemembersOnce` | `src/ru_pm_bridge.py:294-317` | over any cycles with unchanged support, whatever capability lists each reads and whichever of these reads fail, the config is replaced at most once, by what the first cycle that remembers converged on |
| `PmConvergence.LaterCycleIsRejectedIff` | `src/ru_pm_bridge.py:199-241` | after any such cycles the next one is rejected at first iff none of them remembered its outcome and what the configured set asks for under the lists now read is not all supported; otherwise it is accepted on its first attempt or requests nothing |
| `PmConvergence.NextCycleIff` | `src/ru_pm_bridge.py:199-241` | for any two successive reads of the lists, equal, different or failed: what the next cycle requests, and exactly when that is accepted at once |
| `PmConvergence.NextCycleAcceptedAtOnceIff` | `src/ru_pm_bridge.py:303-317` | the case of no lists in either cycle: accepted at once unless the config names no reception-window counter, no default one is supported, and all it names is supported and no default's name; then it is rejected |
| `PmConvergence.NextCycleWithCapabilities` | `src/ru_pm_bridge.py:199-241` | the case of the same lists in both cycles: the next one is accepted at once, requesting what was left active |
| `PmConvergence.NextCycleAfterFailedRead` | `src/ru_config.py:916-944` | the case of lists first and none next: accepted at once iff the first cycle dropped some of the listed request and kept some, or the configured set by itself is not empty and all supported |
| `PmConvergence.FailedReadIsRejected` | `src/ru_pm_bridge.py:213-217` | the defaults, on an O-RU that lists and supports only RX_ON_TIME: accepted, not remembered, and rejected in the next cycle when its read fails |
| `PmConvergence.ForgottenDefaultsExist` | `src/ru_pm_bridge.py:303-317` | a config and an O-RU for which a cycle converges and the next one is rejected again |
| `FullConfig.NeverDanglesIffCountsSuffice` | `src/ru_config.py:176-233` | every link, binding and activation names something pushed by an earlier edit, iff the configured counts suffice and a pattern that is bound was wanted and supported when it was to be uploaded |
| `FullConfig.DefaultCountsSuffice` | `src/ru_config.py:297-324` | with default counts nothing dangles iff a pattern that is bound was also uploaded |
| `FullConfig.LostUploadDangles` | `src/ru_config.py:635-646` | the read of the features fails before the upload and is answered before the binding: the binding dangles |
| `FullConfig.CrossedInRange` | `src/ru_config.py:432-466` | a PRACH endpoint is always linked to an existing carrier |
| `FullConfig.CrossedInjectiveIff` | `src/ru_config.py:432-466` | PRACH endpoints share no carrier iff there are no more of them than rx endpoints |
| `FullConfig.DefaultPatternIsAccepted` | `src/ru_config.py:648-655` | the default pattern is one the compiler accepts |
| `FullConfig.RuConfig.SetFullConfig` | `src/ru_config.py:176-233` | the object pushes the planned edits in order, or none when the endpoints are unusable |
| `FullConfig.RuConfig.SetLowLevelRxLinks` | `src/ru_config.py:432-481` | the loop links rx endpoints straight and PRACH endpoints crossed |
| `FullConfigPlan.PlanInOrder` | `src/ru_config.py:176-233` | the planned edits, each once, in order: what is referred to before what refers to it, the TDD pattern before its binding and both before the activation |
| `FullConfigPlan.LinksAre` | `src/ru_config.py:406-466` | every endpoint is linked once: tx and rx to the carrier of their number, PRACH to the crossed one |
| `FullConfigPlan.CrossedIsPaired` | `src/ru_config.py:452-458` | a PRACH endpoint's carrier is the other one of the pair 0 and 1, 2 and 3, and so on, if there is one, else its own number wrapped around |
| `FullConfigPlan.GroupResolves` | `src/ru_config.py:307-324` | explicit names in order, else a name per port or four, numbered from the base; an empty explicit list is an error |
| `FullConfigPlan.CountsAre` | `src/ru_config.py:382-401` | as many carriers as configured, else as endpoints; four for zero, none for a negative count |

## Left out

- Transport, parsing and rendering: NETCONF/SSH/TLS, VES posting, file writes, XML and YAML parsing, templates and log lines; the model starts from parsed values.
- Message text, log levels and once-per-cycle warnings: texts are opaque but comparable, since the registry compares them.
- Joined alarm messages: the monitor's message is the map of its conditions' messages; separator and order are not modelled.
- AlarmRegistry.RunsAreEventSourced: does not speak of timestamps or of a clear event's trend, which the source reads after releasing the lock (`src/alarm_manager.py:233`).
- FaultMirror.SecondReconcileIsSilent: needs the same order of the list; ties between equally severe sources follow that order.
- Supervision.Step: code between two waits takes no time, and connecting fails only with the exceptions the source expects; statistics counters are not modelled.
- Supervision time: instants and periods are real numbers; rounding of floating-point time is not modelled.
- Supervision.Resume: a notifier that fails makes the session's alarm calls raise (`src/alarm_manager.py:272-282`), and that exception ends `run`; the model's alarm calls return.
- PmFiles.TickJobs: does not compute the mean of a key's samples; a period holds the samples themselves. Ticks of several jobs share one instant.
- FullConfig.SetFullConfig: an edit's failure is not modelled; the claim holds of every prefix of the plan, which is what a failed edit leaves behind. Names such as `TxEndpoint00` are group and index.
- Marks of the overlay: the source keys them by object identity; here a mark sits on its place in the tree. Reuse of an identity after an element was dropped is not modelled, nor is sharing between elements.
- CellOverlay.OverlayCell: works on values rather than in place; a standard attribute's value is a scalar, and the extension and its base and OFH containers are elements where present (anything else raises in the source).
- CellRoundTrip.ChannelComesBack: speaks of ten channels; `pdcch`, `mac_cell_group` and `sib` are rendered as flow mappings, and so are `pattern2` and `rv_sequence`, which are left out of the projected section.
- CellProjection.ExtractDuCell: requires the shapes the YANG model guarantees; on others the source raises. `scheduler`, `ta` and `ntn` have no inverse in the overlay and are not projected.
- YAML scalars: truth values, integers and strings; floats, nulls and dates are not modelled, nor are lists mixing mappings and scalars. Digits are the ten of ASCII.
- SliceDifferentiator.ParseSd: reads an optional sign and hexadecimal digits; the other spellings Python's `int` takes are errors here. The quoted `0x` form of a YAML value is parsed before the model starts.
- Sections without the cell: RRM policies, CU-CP and CU-UP overlays, log, pcap and flat sections merge in the same way and would add no harder property; several cells are several trees.
- `derive_du_timing`, carrier and PRB arithmetic, restart classification, KPI flattening, profile validation and the PTP consumer: they would only add easy members.
