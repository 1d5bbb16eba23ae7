# AquaPulse verification

A Dafny model of the five stateful cores of AquaPulse and of what they promise over whole runs. `dafny verify
dfyconfig.toml` checks every proof.

- **Detection** (`Rounding`, `Scoring`, `Rules`, `RuleMeaning`, `Catalog`, `ShippedRules`, `Deduplication`,
  `DetectionRun`, `RunCounts`, `DetectionEngine`, `DetectionHistory`, `LeakHistory`, `OperatorMoves`, `StatusLife`,
  `StoredPriorities`). Runs over sensors and rules drive a table of detection rows. The create / repeat / recover logic is
  an incremental run-length encoder, and it is proved to agree with the textbook encoder over every sequence of runs.
  `DetectionRun` specifies one run on values; `DetectionEngine` is the same run on objects updated in place, proved
  equal to it.
- **Slices** (`AttachJob`, `SliceLifecycle`, `SliceJobs`, `SliceAttachments`, `SliceOutcomes`, `SlicePolling`). Watcher
  threads, webhook handlers and the jobs they start are interleaved step by step against a slice that
  may report anything at any time. Two pairs of statements are taken as atomic: the check-and-set of
  `activation_attempted` and the check-and-pop of the pending entry.
- **Incidents** (`IncidentTracker`, `IncidentPipeline`, `InvestigationAgent`, `LeastSquares`, `Trend`). The tracker and
  the agent are classes; every call made to the tracker is an event of a trace, and the theorems are about traces.
- **Simulator** (`Faults`, `Physics`, `Simulator`, `SimulatorBounds`, `SimulatorControl`). `Simulator` is the state
  machine with the control routes as commands; `SimulatorControl` holds the object that is updated in place.
- **Network requests** (`Requests`). Buffering, ranking, grouping and the workflow that chains them.

Floats are exact reals and every rounding the code makes is modelled; clocks, random draws, detector verdicts,
network answers and thread completion orders are arbitrary inputs.

Where the code and its prose differ, the code is modelled:

- A gap of exactly the configured length is reported as intermittent, so gap coverage is about open intervals.
- The frozen-sensor rule's minutes setting decides nothing; the number of equal points does.
- Clearing an incident takes a number of normal windows since the last confirmed threat, not consecutive ones.
- The watcher ignores the entry it pops; registering a slice id again can attach the first devices twice, exactly when
  an attached registration's watcher may still attach. Reaps and terminal states leave the entry in the dictionary, so a
  late OPERATING notification answers every incident again.
- An unreadable IMSI or an incident context without its keys ends the attach job after the entry has been removed; the
  incidents from there on are never answered.
- Reopening a dismissed detection, or running with an old clock, can leave two open rows of one key; for each the exact
  condition is proved.
- A dry run counts creations that the real run cannot store without an organization row. In such a run the first rule
  of a sensor that would create ends that sensor's rules, so histories are those of the evaluations that took effect.
- A quality rule without `frozen_minutes` is evaluated for 15 minutes but scored against its threshold.
- A freezing sensor fault snapshots its own first tick rather than the last reading before it.
- The collecting node of the workflow passes on ten requests and drops the rest.

## Model

| member | source | states |
|---|---|---|
| DetectionHistory.RowsEncodeHistory | plateform/backend/app/detection/engine.py:200-283 | after any sequence of runs with strictly increasing clocks, with or without an organization row, the stored rows of every (sensor, rule) key equal the textbook run-length encoding of its evaluations that took effect: one row per maximal triggered stretch, first clock, length, recovery clock, open only when the stretch reaches the last evaluation |
| DetectionHistory.BlocksAreTheMaximalOnes | plateform/backend/app/detection/engine.py:230-280 | the reference encoder lists exactly the stretches of triggers that cannot be extended on either side |
| DetectionHistory.HistoryFromRows | plateform/backend/app/detection/engine.py:230-280 | the encoding loses nothing: an evaluation that took effect triggered if and only if some stored row of the key was open at its clock |
| DetectionHistory.RepeatCountsAddUp | plateform/backend/app/detection/deduplication.py:82-92 | the repeat counts stored for a key add up to the number of its triggered evaluations |
| DetectionHistory.StepsEncode | plateform/backend/app/detection/engine.py:238-253 | folding create / repeat / recover over one key's evaluations yields the encoding, by extension of one evaluation at a time |
| DetectionRun.RunFrame | plateform/backend/app/detection/engine.py:200-283 | in a real run each key's rows move by exactly that key's own taken evaluation, or not at all, whatever the other sensors and rules of the nested loops do |
| DetectionRun.RunRulesFrame | plateform/backend/app/detection/engine.py:217-283 | a sensor's loop raises if and only if there is no organization row and some of its rules would create from the rows it started with |
| DetectionRun.TakenExactlyWhen | plateform/backend/app/detection/engine.py:217-283 | without an organization row the rules of a sensor take effect exactly up to the first one that would create; with one, all of them do |
| LeakHistory.CombinedOpenExactlyWhenBothOpen | plateform/backend/app/detection/rules.py:197-248 | over any scheduled runs of the three shipped leak rules with an organization row, a combined detection of a sensor is open at an evaluation's clock if and only if a pressure detection and a flow detection of it are |
| DetectionRun.DryRunAgreement | plateform/backend/app/detection/engine.py:239-280 | a dry run leaves the store unchanged, and reports the real run's created, deduplicated and error counts if and only if an organization row exists or nothing would be created |
| RunCounts.SummaryCounts | plateform/backend/app/detection/engine.py:176-301 | in real and dry runs alike every counter of the summary (rules evaluated, created, deduplicated, recovered, errors) is the number of evaluations that the rows the run began with decide so, up to the one that ends a sensor's loop |
| DetectionEngine.Engine.Run | plateform/backend/app/detection/engine.py:176-301 | the loop over sensors with its per-sensor exception handler, over rows that are objects updated in place, computes the specified run on the table and the counters |
| DetectionEngine.Engine.RunRules | plateform/backend/app/detection/engine.py:217-280 | one sensor's rules in order, the rest skipped once an exception leaves the loop |
| DetectionEngine.Engine.EvaluateOne | plateform/backend/app/detection/engine.py:218-280 | one pass: recover, repeat, create, dry-run count or the missing-organization exception; no other row changes |
| DetectionEngine.AnomalyDetection.MarkRecovered | plateform/backend/app/detection/deduplication.py:73-79 | closes the condition at the clock and leaves the repeat count and the rest of the summary |
| DetectionEngine.AnomalyDetection.RecordRepeat | plateform/backend/app/detection/deduplication.py:82-92 | counts from one where the key is missing, reopens the condition and returns the stored count |
| DetectionEngine.FailureSticks | plateform/backend/app/detection/engine.py:281-283 | after an exception the sensor's remaining rules change neither rows nor counters |
| Deduplication.FindOpen | plateform/backend/app/detection/deduplication.py:48-65 | an active row of the key with no newer active row of it, or none when there is none |
| Deduplication.QueryAnswerIsUnique | plateform/backend/app/detection/deduplication.py:55-65 | with distinct detection times the query has one possible answer |
| Deduplication.DecideOnKeyRows | plateform/backend/app/detection/deduplication.py:48-70 | the decision for a key depends on the rows of that key alone |
| Deduplication.StepFrame | plateform/backend/app/detection/engine.py:230-280 | an evaluation of one key leaves the rows of every other key as they were |
| Deduplication.BareRow | plateform/backend/app/detection/deduplication.py:68-92 | a row stored without the bookkeeping keys counts as open and as seen once |
| OperatorMoves.OneOpenRowPerKey | plateform/backend/app/detection/deduplication.py:31-92 | under every interleaving of runs (increasing clocks) with operator moves (a reopen only where it is safe in the sense of `ReopenKeepsSingleOpenIff`), any other active row of a key that has an open active row is recovered and older |
| OperatorMoves.CreationKeepsSingleOpenIff | plateform/backend/app/detection/deduplication.py:55-65 | a creation keeps that invariant if and only if no active row of the key is newer than the run's clock |
| OperatorMoves.BackdatedClockLeavesTwoOpen | plateform/backend/app/detection/deduplication.py:55-92 | trigger, recover, trigger at an older clock, trigger again: two open active rows of one key |
| OperatorMoves.ReopenKeepsSingleOpenIff | plateform/backend/app/services/investigation.py:193-213 | a reopen keeps the invariant if and only if the reopened row meets a condition on its active siblings that a caller can check |
| OperatorMoves.ReopenAfterRecurrence | plateform/backend/app/services/investigation.py:193-213 | dismiss an open row, let the condition fire again, reopen: two open active rows of one key |
| OperatorMoves.ClosingKeepsSingleOpen | plateform/backend/app/detection/workflow.py:12-17 | every move that keeps a row's activity or ends it keeps the invariant |
| StatusLife.ServicesFollowTheTable | plateform/backend/app/services/investigation.py:129-275 | every service carries a move out exactly when the transition table of workflow.py allows it for the row's status, a merge only into another mergeable row and a promotion only with a location; starting a review under way is accepted and changes nothing |
| StatusLife.MovesAreCarriedOut | plateform/backend/app/services/investigation.py:129-275 | a move that is carried out changes the status of its row and nothing else; any other changes nothing |
| StatusLife.EndsAreFinal | plateform/backend/app/detection/workflow.py:3-10 | whatever runs and moves follow, a promoted or merged detection keeps its status |
| StatusLife.PromotedWasReviewed | plateform/backend/app/detection/workflow.py:3-10 | no detection is promoted that was not under review at an earlier point of the trace |
| Scoring.ScoreAccuracy | plateform/backend/app/detection/scoring.py:73-111 | the score is in [0, 1] and within 5.3e-5 of the unrounded sum with weights 0.40, 0.25, 0.15, 0.10, 0.05 and 0.05, despite seven roundings and a clamp |
| Scoring.ScoreAndPriorityMonotone | plateform/backend/app/detection/scoring.py:34-122 | score and priority never fall when ratio, metric count, criticality or packet loss rise or health falls, unknown counting as mildest |
| Scoring.FactorsMeaning | plateform/backend/app/detection/scoring.py:30-70 | each factor by its scale: complete at twice the threshold, three metrics, a criticality of three, 20 percent packet loss, no health left; proportional below; unknown values count for nothing |
| Scoring.PriorityBands | plateform/backend/app/detection/scoring.py:114-122 | critical exactly from 0.80, high from 0.55, medium from 0.35, and ranked in that order |
| Rounding.RoundIsNearest | plateform/backend/app/detection/scoring.py:73-111 | rounding yields the nearest multiple of the step, the even one of two equally near |
| ShippedRules.ShippedRateRules | plateform/backend/app/detection/catalog.py:21-95 | with positive first values: the shipped pressure rule fires exactly on four pressures of which the last is at most 0.92 of the first, the flow rule on a last flow of at least 1.12 of the first, the combined rule exactly on both |
| ShippedRules.ShippedConnectivity | plateform/backend/app/detection/catalog.py:96-120 | exactly on three readings with a loss of 10 percent, a signal down to -100 dBm or a gap of 15 minutes |
| ShippedRules.ShippedMissingTelemetry | plateform/backend/app/detection/catalog.py:121-145 | exactly for a sensor known to have reported whose latest reading is 30 minutes old or gone |
| ShippedRules.ShippedSensorQuality | plateform/backend/app/detection/catalog.py:146-178 | exactly on four readings with an outlier, five equal values of a metric or a pressure above 50 times the flow, the sensor's own ranges going before the shipped ones |
| ShippedRules.MissingKeysFallBack | plateform/backend/app/detection/engine.py:88-167 | a configuration with missing keys evaluates as the one completed with their fallbacks, and is scored against the same threshold except for the quality rule |
| ShippedRules.QualityScoredApart | plateform/backend/app/detection/engine.py:303-313 | without frozen_minutes the quality rule is evaluated for 15 minutes but scored against its threshold: the two agree only if that is 15 |
| Catalog.CombinedIsAtLeastHigh | plateform/backend/app/detection/catalog.py:21-178 | every triggered COMBINED_LEAK_PATTERN of the shipped catalog scores at least 0.56, hence high or critical |
| Catalog.CriticalOnlyFrom | plateform/backend/app/detection/engine.py:303-313 | a critical priority comes only from that rule, or from CONNECTIVITY_DEGRADATION with all three reasons |
| Catalog.CombinedBoundIsReached | plateform/backend/app/detection/scoring.py:73-111 | four concrete readings trigger the shipped rule and score exactly 0.56, so the bound cannot be raised |
| Catalog.ConnectivityReachesCritical | plateform/backend/app/detection/scoring.py:114-122 | on any readings that give all three reasons, connectivity is critical for the most critical segment with full packet loss and no health left |
| Catalog.AllThreeReasonsOccur | plateform/backend/app/detection/rules.py:251-357 | three concrete readings give all three reasons |
| Catalog.CombinedExactlyWhenBothRateRules | plateform/backend/app/detection/rules.py:197-248 | on one sensor's readings the shipped combined rule fires exactly when both shipped rate rules do |
| StoredPriorities.StoredRowsAreSound | plateform/backend/app/detection/engine.py:339-378 | after any interleaving of runs of shipped rules with operator moves, every stored row obeys those two facts and carries the priority of its own score |
| Rules.GapCoverage | plateform/backend/app/detection/rules.py:319-342 | over time-sorted readings, intermittence is absent if and only if every open interval of the configured length inside their span holds a reading |
| Rules.FindMaxGap | plateform/backend/app/detection/rules.py:319-325 | the loop returns the largest adjacent time difference, or zero when none is positive |
| Rules.ConnectivityMeaning | plateform/backend/app/detection/rules.py:251-357 | with enough readings the reasons, in order, are: packet loss exactly when some measured loss reaches its threshold, signal exactly when some measured strength is down to its threshold, intermittence exactly when the largest gap reaches the configured one |
| Rules.ConnectivityRatio | plateform/backend/app/detection/rules.py:251-357 | the reported ratio is at least every loss, the size of the weakest signal and the largest gap, for each reason given |
| Rules.EvaluateConnectivity | plateform/backend/app/detection/rules.py:251-357 | the loops and list appends compute that hit |
| Rules.SensorQualityMeaning | plateform/backend/app/detection/rules.py:452-579 | with enough readings: out of range exactly when a measured physical metric has a value outside its range, frozen exactly when one has enough values and all the same, inconsistent exactly when the latest pressure and flow are out of proportion; each reason once and nothing else |
| Rules.LastOfSeries | plateform/backend/app/detection/rules.py:545-546 | the latest sample of a metric is the one of the last reading that has it |
| Rules.EvaluateSensorQuality | plateform/backend/app/detection/rules.py:452-579 | the loop over the physical metrics, with its first-outside scan, computes that hit |
| Rules.FrozenMinutesNeverDecides | plateform/backend/app/detection/rules.py:521-526 | the frozen-minutes setting changes no result: the point-count test already satisfies its alternative |
| Rules.Series | plateform/backend/app/detection/rules.py:47-53 | the loop collects the present values of a metric with their times, in order |
| RuleMeaning.SampleOf | plateform/backend/app/detection/rules.py:47-53 | a series has exactly one sample for each reading that carries the metric, at that reading's place among them |
| RuleMeaning.MeasuredFields | plateform/backend/app/detection/rules.py:12-21 | each metric is measured by its own field of a reading |
| RuleMeaning.PressureDropMeaning | plateform/backend/app/detection/rules.py:67-130 | fires exactly when enough readings carry a pressure and the last is below the first by at least the threshold percentage of it, never on a rise; reports that percentage and the window between those two readings |
| RuleMeaning.FlowSurgeMeaning | plateform/backend/app/detection/rules.py:133-194 | fires exactly on a sufficient rise from the first to the last flow; from zero any other value is a rise of 100 percent |
| RuleMeaning.CombinedMeaning | plateform/backend/app/detection/rules.py:197-248 | fires exactly when the pressure falls and the flow rises by their percentages; its window covers both |
| RuleMeaning.CombinedRatio | plateform/backend/app/detection/rules.py:197-248 | reports the larger of the two percentages |
| RuleMeaning.NothingToCompare | plateform/backend/app/detection/rules.py:67-194 | without a reading that carries the metric neither rate rule fires, and an idle rule reports the window it was given |
| RuleMeaning.MissingTelemetryMeaning | plateform/backend/app/detection/rules.py:360-413 | fires exactly when the sensor has reported before, or need not have, and its latest reading is at least the limit old; a sensor without any reading left counts as a minute past the limit |
| RuleMeaning.HitsSpanTheReadings | plateform/backend/app/detection/rules.py:62-64 | a connectivity or quality hit spans exactly from the earliest to the latest reading |
| RuleMeaning.ConnectivityRatioIsMeasured | plateform/backend/app/detection/rules.py:251-357 | the reported ratio is a loss, a signal's size or the gap that gave a reason, or zero when none is positive |
| RuleMeaning.QualityRatio | plateform/backend/app/detection/rules.py:452-579 | the reported ratio is the size of an outlier, the span of a frozen metric or the ratio out of proportion, or zero, and at least each of the latter two |
| Rules.PressureDropIsUnitFree | plateform/backend/app/detection/rules.py:67-130 | rescaling the unit of pressure changes no verdict, ratio or window |
| Rules.FlowSurgeIsUnitFree | plateform/backend/app/detection/rules.py:133-194 | likewise for flow |
| SliceLifecycle.AtMostOnce | agents/network_agent/webhook_server.py:158-266 | under every interleaving of watchers, notifications, jobs and registrations: each registration is activated at most once, attach jobs plus a still pending entry never outnumber the registrations in total, and no attach job starts unless OPERATING was observed |
| SliceJobs.StartedExactlyWhenCalledFor | agents/network_agent/webhook_server.py:158-266 | for every run: a registration has its one activation if and only if some step saw the slice AVAILABLE on its behalf (its watcher acting on that read, or a notification while it holds the entry), and as many attach jobs and deny loops as there were steps calling for them |
| SliceJobs.EntryIsTheLatest | agents/network_agent/webhook_server.py:197-258 | the pending entry is always the latest registration's, and is there from its registration until a step attaches |
| SliceJobs.WatcherRunsUntilItEnds | agents/network_agent/webhook_server.py:158-213 | each registration has one watcher, which has finished if and only if it acted on OPERATING, on a terminal state or on a PENDING read past its time |
| SliceJobs.JobsFollowTheirAnswers | agents/network_agent/webhook_server.py:92-155 | at every moment of every run each job stands where the answers given to it have brought it: the first activation call decides, devices and contexts are taken in order until the job is over |
| SliceJobs.MarksTellTheRun | agents/network_agent/webhook_server.py:158-266 | the marks used by the outcome facts are set exactly by the steps that see OPERATING or an end of the slice |
| SliceAttachments.AttachedAtMostOnce | agents/network_agent/webhook_server.py:197-266 | for any number of registrations of a slice id, each made only when no registration already attached has a watcher that may still attach, no registration is attached twice |
| SliceAttachments.UnsafeRegistrationAttachesTwice | agents/network_agent/webhook_server.py:199-229 | the condition is exact: from every reachable state that breaks it, a registration has a continuation in which a registration is attached twice |
| SliceOutcomes.IncidentsAreAnswered | agents/network_agent/webhook_server.py:70-213 | for one registration whose devices and incidents pair off by phone, once watcher and handlers are done: an incident is answered once by the attach job if its device comes before the one that ends that job and once by the deny loop if its context comes before the one that ends that loop; never, if and only if neither reaches it; both jobs run only if OPERATING and an end state were both observed |
| SliceOutcomes.ExactlyOneOutcome | agents/network_agent/webhook_server.py:70-213 | likewise, and if OPERATING excludes terminal states and reaps: an incident hears at most one grant or denial, exactly one if and only if the one job that runs gets as far as it, and a grant exactly when that job recorded its device attached |
| SliceOutcomes.CleanRegistrationsReachAll | agents/network_agent/webhook_server.py:92-146 | with readable IMSIs and complete contexts either job gets as far as every incident |
| SliceOutcomes.UnansweredIncidents | agents/network_agent/webhook_server.py:103-107 | an unreadable IMSI on the first device leaves its incident and the next one unanswered for good, the entry being gone |
| SliceOutcomes.ExpectedCourse | agents/network_agent/webhook_server.py:197-202 | the expected course of one slice with one device is such a run, so the two facts above are about something; its one incident is granted once |
| SliceLifecycle.EntryLeavesOnlyByAttachment | agents/network_agent/webhook_server.py:199-213 | a single registration's entry leaves the dictionary exactly when its attach job is claimed; reaps and terminal states leave it there |
| SliceOutcomes.BothJobsExactlyWhen | agents/network_agent/webhook_server.py:197-266 | with one registration, a step makes both jobs exist if and only if it claims the attachment while a deny loop exists, or starts a deny loop when the entry is already gone |
| SliceOutcomes.LateOperatingAnswersTwice | agents/network_agent/webhook_server.py:204-266 | after a late OPERATING notification behind a terminal state, however the run ends, every incident both jobs get as far as has been answered twice |
| SliceOutcomes.GrantedAndDenied | agents/network_agent/webhook_server.py:204-266 | such a run in full, with one incident granted once and denied once |
| SliceAttachments.ReRegistrationAttachesTwice | agents/network_agent/webhook_server.py:199-201 | a second registration of the slice id lets the first watcher pop the second's entry and attach its own devices again |
| AttachJob.AttachAllDevices | agents/network_agent/webhook_server.py:92-155 | one record per device and one outcome per device with an incident, until the list ends, an IMSI cannot be read, or an incident context lacks a key; in the last case an attached device is recorded again as failed before the job dies |
| AttachJob.RecordAt | agents/network_agent/webhook_server.py:101-146 | the record of a device has its phone number, its IMSI or 99999991000 plus its index, and whether it attached |
| AttachJob.Processed | agents/network_agent/webhook_server.py:103-144 | the job gets through the whole list if and only if no device has an unreadable IMSI or an incomplete context |
| AttachJob.BreaksExactly | agents/network_agent/webhook_server.py:103-144 | a device ends the job exactly when its IMSI is unreadable or the first context with its phone number lacks a key |
| AttachJob.BrokenRecordsAre | agents/network_agent/webhook_server.py:120-144 | a device that ends the job leaves a failed record last, after an attached one if it attached; none if its IMSI is unreadable |
| AttachJob.DeviceDecides | agents/network_agent/webhook_server.py:92-155 | with phones and incidents paired off, an incident hears from its own device and no other: a grant exactly when that device attached |
| AttachJob.Lookup | agents/network_agent/webhook_server.py:32-36 | the first context with the phone number, or none when no context has it |
| SlicePolling.CreatePreprovisionedSlice | agents/network_agent/runner.py:63-126 | returns an id if and only if the last poll saw OPERATING, with the environment variable equal to it and empty otherwise; every failure has one of three causes; at most ceil(max_wait / 3) polls |
| SlicePolling.PollUntilOperating | agents/network_agent/runner.py:93-122 | the loop ends at the first OPERATING or terminal answer or at its deadline, having requested activation exactly at the specified polls |
| SlicePolling.AtMostOneAccepted | agents/network_agent/runner.py:109-116 | only the last activation request can have been accepted, and no AVAILABLE poll goes without a request before one is |
| SlicePolling.PollsAreBounded | agents/network_agent/runner.py:96-122 | a loop that sleeps between polls and checks its deadline makes at most ceil(limit / pause) polls |
| SlicePolling.DeleteNetworkSlice | agents/network_agent/camara_api.py:243-280 | reports DELETED exactly when the delete call was issued and succeeded, for an operating slice issues it exactly when the last poll read AVAILABLE, and deactivates first exactly for an operating slice |
| IncidentPipeline.OneAlertPerLifecycle | agents/investigation_agent/aia/pipeline.py:71-148 | over every run with a monotone clock, two alerts of one cluster are more than the cooldown apart or have at least the threshold of its normal windows between them |
| IncidentPipeline.ActiveExactlyWhenOpen | agents/investigation_agent/aia/pipeline.py:71-148 | the tracker holds a cluster if and only if some alert of it is still open by the trace alone (every later look within the cooldown, no count of normal windows since a confirmed threat completed); no assumption on the clock |
| IncidentPipeline.AlertStaysOpen | agents/investigation_agent/aia/pipeline.py:94-142 | while open, the tracker's start time is that alert's and its counter is the normal windows since the last confirmed threat |
| IncidentPipeline.AlertKeepsItsTier | agents/investigation_agent/aia/pipeline.py:94-109 | an open alert is held at its own tier, whatever later threats of the cluster report |
| IncidentPipeline.ClustersAreIndependent | agents/investigation_agent/aia/pipeline.py:67-148 | the dictionaries keep one independent life per cluster: no event of another cluster changes it |
| IncidentPipeline.SuspicionDoesNotResetTheCount | agents/investigation_agent/aia/pipeline.py:211-226 | three normal windows interrupted by suspicious ones clear the incident within the cooldown and a second alert goes out, so consecutive normal windows are not required |
| IncidentTracker.TrackerCountsConsecutive | agents/investigation_agent/aia/pipeline.py:94-142 | over the tracker's own calls alone, whatever the clock reads: the counter is the current unbroken run of normal windows, and an incident is held exactly when there was a threat and no threshold-long run has followed it since |
| IncidentTracker.RetriesCountTheRun | agents/investigation_agent/aia/pipeline.py:41-52 | a cluster's retry count is its own unbroken run of inconclusive investigations, however others interleave |
| IncidentTracker.ActiveIncidentTracker.IsActive | agents/investigation_agent/aia/pipeline.py:71-86 | a look answers whether the cluster is within its lifetime and clears it when it is not |
| IncidentTracker.ActiveIncidentTracker.RegisterIncident | agents/investigation_agent/aia/pipeline.py:94-109 | new exactly when not active; a known cluster only has its count reset |
| IncidentTracker.ActiveIncidentTracker.UpdateIncident | agents/investigation_agent/aia/pipeline.py:114-119 | raises the tier and resets the count of an active cluster, else registers it |
| IncidentTracker.UpdateRaisesTheTier | agents/investigation_agent/aia/pipeline.py:114-119 | an update never lowers the tier of an active incident, keeps its start, starts its count over and touches no other cluster |
| IncidentTracker.ActiveIncidentTracker.RecordNormal | agents/investigation_agent/aia/pipeline.py:121-142 | counts one more normal window and reports a clearing exactly when the cluster left the dictionaries; the three dictionaries keep the same keys |
| IncidentTracker.ActiveIncidentTracker.Clear | agents/investigation_agent/aia/pipeline.py:144-148 | removes the cluster from all three dictionaries and nothing else |
| IncidentTracker.RetryTracker.Record | agents/investigation_agent/aia/pipeline.py:254-260 | counts or resets, escalates from the third inconclusive cycle in a row, requeues before |
| InvestigationAgent.BatchAccounting | agents/investigation_agent/aia/pipeline.py:194-283 | every window of a batch ends exactly once as archived, alerted, suppressed after investigation or lost to a failed investigation |
| InvestigationAgent.InvestigatedByTheTrace | agents/investigation_agent/aia/pipeline.py:194-227 | by the trace alone: exactly the suspicious windows whose cluster has no open alert at their own look are passed on to be investigated, in order, and exactly the others are archived |
| InvestigationAgent.DetectionEventAt | agents/investigation_agent/aia/pipeline.py:209-226 | one event a window: a look at the tracker for a suspicious one, a normal window counted for the others |
| InvestigationAgent.ArchivedLateExactly | agents/investigation_agent/aia/pipeline.py:344-370 | after investigation exactly the windows without a confirmed anomaly are archived, in the order they settle |
| InvestigationAgent.TierOfAnAlert | agents/investigation_agent/aia/pipeline.py:346-349 | an alerted cluster is held at the investigation's tier, or 1 when that is absent or zero |
| InvestigationAgent.CompletionOrderDoesNotMatter | agents/investigation_agent/aia/pipeline.py:264-283 | two completion orders with the same verdicts alert the same clusters, and equally many when each settles within a cooldown |
| InvestigationAgent.AlertedAreTheConfirmed | agents/investigation_agent/aia/pipeline.py:344-370 | the clusters alerted by a batch are exactly those with a confirmed investigation |
| InvestigationAgent.AlertedOnce | agents/investigation_agent/aia/pipeline.py:344-370 | a batch settled within one cooldown alerts no cluster twice |
| InvestigationAgent.ForwardedAreInactive | agents/investigation_agent/aia/pipeline.py:209-226 | when detection ends no forwarded window's cluster has an incident |
| InvestigationAgent.BatchAlerts | agents/investigation_agent/aia/pipeline.py:331-389 | a batch's dispatched threats are the alerts of its stretch of the trace, in order, so facts about alerts over traces hold of runs of batches |
| InvestigationAgent.AnomalyInvestigationAgent.ProcessBatch | agents/investigation_agent/aia/pipeline.py:331-370 | the detection and settlement loops over the shared tracker compute the specified alerts, archive and trace for any result of the thread pool |
| InvestigationAgent.AnomalyInvestigationAgent.RunDetection | agents/investigation_agent/aia/pipeline.py:194-227 | the detection loop forwards and archives exactly the specified windows, in order |
| Trend.TrendMinimisesError | agents/investigation_agent/aia/nodes/risk.py:38-50 | the reported line over the reading index leaves no more squared error than any other line |
| Trend.ClampChangesNothing | agents/investigation_agent/aia/nodes/risk.py:45-50 | 0 <= residual <= total squares, so R squared is in [0, 1] before the clamp |
| Trend.PerfectFitIffLine | agents/investigation_agent/aia/nodes/risk.py:38-50 | R squared is 1 if and only if the readings lie on a line, and then the slope is that line's |
| Trend.RSquaredIsSquaredCorrelation | agents/investigation_agent/aia/nodes/risk.py:38-50 | for any series with some variation, R squared is the squared correlation of the readings with their index, that is the share of the total squares the trend explains; for a constant series it is 1 |
| Trend.FallingTrend | agents/investigation_agent/aia/nodes/risk.py:38-50 | a series that never rises and ends lower has a strictly negative slope |
| Trend.SlopeIgnoresOrigin | agents/investigation_agent/aia/nodes/risk.py:53-73 | shifting all timestamps changes no slope per minute |
| Trend.PerMinuteMinimisesError | agents/investigation_agent/aia/nodes/risk.py:53-73 | over readings at any times spanning more than 0.01 s, some line with the reported slope fits the minutes since the first reading at least as well as any line |
| Trend.EvenSpacing | agents/investigation_agent/aia/nodes/risk.py:53-73 | for readings d minutes apart the slope per minute is the index slope divided by d |
| Trend.DegenerateSpan | agents/investigation_agent/aia/nodes/risk.py:63-67 | for spans of at most 0.01 s it is 150 times the index slope |
| Trend.FallingPerMinute | agents/investigation_agent/aia/nodes/risk.py:53-73 | a falling window falls per minute whatever its increasing timestamps |
| Trend.SimulatedSlopeIsIndexSlope | water-pipeline-testbed/simulator/app/telemetry.py:30-41 | on windows built by the simulator both slopes are equal |
| Trend.ReconstructTimes | water-pipeline-testbed/simulator/app/telemetry.py:30-41 | timestamps one minute apart, the last one now |
| Trend.InvestigationState.ComputePhysicalDeviations | agents/investigation_agent/aia/nodes/risk.py:76-96 | sets the five fields from first, last and all readings, and changes nothing for an empty window |
| Trend.PercentOfMeaning | agents/investigation_agent/aia/nodes/risk.py:88-93 | the change is that percentage of the first value; zero when the first value is |
| Trend.FallingPressureIsSeen | agents/investigation_agent/aia/nodes/risk.py:76-96 | a falling positive pressure shows both as a positive drop and as a negative slope |
| LeastSquares.FitIsTheMinimiser | agents/investigation_agent/aia/nodes/risk.py:45-46 | the closed form is the unique line of least squared error, for any abscissae not all equal |
| Simulator.LogReplaysToLiveState | water-pipeline-testbed/simulator/app/physics.py:87-149 | at every reachable state, replaying the event log oldest first gives exactly the active faults (cluster, type, magnitude) and the outages |
| Simulator.FaultsByTheCommands | water-pipeline-testbed/simulator/app/main.py:186-238 | after every run the faults (type, magnitude, effect and age) and outages in force are those the commands amount to: an injection takes effect when its cluster is known and free of faults and the library can build it, and lasts until cleared |
| Simulator.InjectsAndClearsAlternate | water-pipeline-testbed/simulator/app/main.py:186-220 | through the control routes, of two consecutive log entries about a cluster's faults one injects and the other clears |
| Simulator.AlternationEnds | water-pipeline-testbed/simulator/app/main.py:186-220 | the oldest such entry injects, and the newest injects exactly while the fault is active |
| Simulator.InjectedLogFits | water-pipeline-testbed/simulator/app/physics.py:87-96 | injecting over an active fault still replays; the log stays alternating if and only if the cluster had no fault |
| Simulator.SensorsAtEveryState | water-pipeline-testbed/simulator/app/physics.py:196-216 | at every reachable state a drifting sensor is off by exactly its rate times its ticks, a frozen one repeats its snapshot, a flatlined one reports zero, and no offset or snapshot outlives its fault |
| Simulator.ReportsAfterATick | water-pipeline-testbed/simulator/app/physics.py:192-216 | after a tick every sensor reports as its fault's mode says, and without a fault the true state again |
| Simulator.WindowsHoldTheLatest | water-pipeline-testbed/simulator/app/physics.py:218-226 | at every reachable state a window holds exactly the latest ten readings since the last reset, in order |
| Simulator.LatestReading | water-pipeline-testbed/simulator/app/physics.py:218-226 | the newest reading of a window is the reported pressure and flow and the environment's temperature with its noise, rounded to two digits |
| Simulator.NotBelowZero | water-pipeline-testbed/simulator/app/physics.py:199-200 | while a fault is active neither pressure nor flow falls below zero, however strong the noise |
| Simulator.TimeAndTemperature | water-pipeline-testbed/simulator/app/physics.py:78-149 | at every reachable state the counter is the ticks since the last reset, the temperature the one last set since then, and log entries carry the count at which they were made |
| SimulatorBounds.HealthyReturnsToBaseline | water-pipeline-testbed/simulator/app/physics.py:152-181 | after k ticks without a fault the pressure error is at most 0.85^k of the first plus the accumulated noise, and the flow error likewise with 0.82 |
| SimulatorBounds.HealthyBoundClosed | water-pipeline-testbed/simulator/app/physics.py:152-155 | that bound is q^k e + eta (1 - q^k) / (1 - q) |
| SimulatorBounds.RateFaultsStayInBand | water-pipeline-testbed/simulator/app/physics.py:179-200 | over whole runs, however often rate faults of at least r percent are injected and cleared and whatever their ramp, the pressure stays within [b(1 + r/15) - eta/0.15, b + eta/0.15] |
| SimulatorBounds.FlowFaultsStayInBand | water-pipeline-testbed/simulator/app/physics.py:181-200 | likewise the flow, for rates between l and h percent: within [b(1 + l/18) - eta/0.18, b(1 + h/18) + eta/0.18] |
| SimulatorBounds.LeakSettles | water-pipeline-testbed/simulator/app/physics.py:176-200 | a fully developed rate fault comes to rest at pressure b(1 + rate/15) and flow b(1 + rate/18), the distance shrinking like 0.85^k and 0.82^k up to the noise, so those bounds are limits |
| Physics.TickTowardsLevel | water-pipeline-testbed/simulator/app/physics.py:152-200 | at any stage of any fault's ramp a tick is a contraction towards a level, clamped at zero: a mixture of the baseline moved by the rate and, with weight 0.05 + 0.3 ramp, the target |
| SimulatorBounds.FaultSettles | water-pipeline-testbed/simulator/app/physics.py:176-200 | every fully developed fault, of rates, targets or both, brings pressure and flow to rest at its levels, each tick leaving a fixed part of the distance plus its noise |
| SimulatorBounds.TargetSettles | water-pipeline-testbed/simulator/app/physics.py:191-197 | faults with a pressure and a flow target settle at their mixtures with the baseline, the distances shrinking like 0.5525^k and 0.533^k up to 0.65 of the noise |
| SimulatorBounds.WhereTargetsLead | water-pipeline-testbed/simulator/app/faults.py:75-150 | the resting levels of every target in the fault library as shares of the baseline |
| SimulatorBounds.WhereRatesLead | water-pipeline-testbed/simulator/app/faults.py:58-160 | likewise of every rate: a rupture empties the pipe of pressure, a small leak leaves 14.2/15 of it |
| SimulatorBounds.HowSensorsFail | water-pipeline-testbed/simulator/app/faults.py:150-192 | which scenarios distort the reports and how: zero, standing still, or drifting by a tenth of the baseline in 25 or in 5 ticks |
| SimulatorBounds.WhenScenariosAreComplete | water-pipeline-testbed/simulator/app/faults.py:195-199 | the tick from which each scenario of the library has its full effect, and not before |
| SimulatorBounds.TargetFaultsStayInBand | water-pipeline-testbed/simulator/app/physics.py:152-200 | over whole runs with noise, whatever their ramp, faults with targets between l and h percent keep pressure and flow between the mixtures of l and h, but for the noise that can build up |
| SimulatorBounds.SmallLeakDropsLittle | water-pipeline-testbed/simulator/app/faults.py:58-74 | without noise small leaks never show a drop above 5.34 percent between any two moments of any two runs |
| SimulatorBounds.SmallLeakWindowDropsLittle | water-pipeline-testbed/simulator/app/physics.py:218-226 | on a segment of at least 37 psi no rounded reading of a window is more than 5.4 percent below an earlier one |
| SimulatorBounds.TargetsStayAboveFloor | water-pipeline-testbed/simulator/app/physics.py:191-197 | without noise target faults never take the pressure below a fixed mixture of target and baseline |
| SimulatorBounds.PumpFailureKeepsPressure | water-pipeline-testbed/simulator/app/faults.py:108-113 | the pump failure, described as a collapse to near zero, leaves 29 percent of the baseline pressure |
| SimulatorBounds.FirstTickFreezes | water-pipeline-testbed/simulator/app/physics.py:206-211 | a freezing fault's snapshot is the true state of its first tick, not the last reading before it |
| SimulatorBounds.FrozenUntilCleared | water-pipeline-testbed/simulator/app/physics.py:206-211 | every later report repeats the snapshot until that cluster is cleared or the simulator reset |
| Faults.RampFactor | water-pipeline-testbed/simulator/app/faults.py:195-199 | a factor in [0, 1] |
| Faults.RampGrows | water-pipeline-testbed/simulator/app/faults.py:195-199 | 1 for sudden faults; for gradual ones the ticks over ramp_ticks until that is complete; never decreasing |
| Faults.WhatCanBeBuilt | water-pipeline-testbed/simulator/app/faults.py:202-209 | a leak needs one of its three magnitudes and has that one's effect; every other known fault accepts any magnitude and records it |
| Faults.BuildFault | water-pipeline-testbed/simulator/app/faults.py:202-209 | a built fault carries the requested cluster, type and magnitude and no ticks |
| SimulatorControl.SimulationState.Tick | water-pipeline-testbed/simulator/app/physics.py:158-226 | the loop over the clusters, each updated in place, yields the simultaneous tick of all of them |
| SimulatorControl.SimulationState.TickCluster | water-pipeline-testbed/simulator/app/physics.py:161-226 | one cluster's fault, state and window move, and nothing of any other |
| SimulatorControl.ThroughAllIsTicked | water-pipeline-testbed/simulator/app/physics.py:161-226 | ticking clusters one after another is ticking them at once: none sees another's new state |
| SimulatorControl.SimulationState.InjectFault | water-pipeline-testbed/simulator/app/physics.py:87-96 | records the fault and prepends its log entry |
| SimulatorControl.SimulationState.ClearFault | water-pipeline-testbed/simulator/app/physics.py:98-114 | restores the sensor in any case, removes and logs the fault if there is one, and says whether there was |
| SimulatorControl.SimulationState.ClearAllFaults | water-pipeline-testbed/simulator/app/physics.py:116-118 | clears the faults in the order listed and leaves none |
| SimulatorControl.SimulationState.SetApiOutage | water-pipeline-testbed/simulator/app/physics.py:120-131 | switches one outage and logs it even when nothing changes |
| SimulatorControl.SimulationState.Reset | water-pipeline-testbed/simulator/app/physics.py:133-149 | returns to the start-up state, the log included |
| SimulatorControl.InjectFaultRoute | water-pipeline-testbed/simulator/app/main.py:186-206 | unknown cluster, active fault and unbuildable fault are refused in that order and change nothing; otherwise the fault is injected |
| SimulatorControl.ClearFaultRoute | water-pipeline-testbed/simulator/app/main.py:209-214 | not found exactly when the cluster had no fault, its sensor being restored all the same |
| SimulatorControl.ApiOutageRoute | water-pipeline-testbed/simulator/app/main.py:223-238 | refused exactly for unknown clusters, otherwise switched |
| Requests.RequestCollector.AddRequest | agents/network_agent/nodes/collect_requests.py:10-15 | appends, starting the batch clock exactly when nothing was pending |
| Requests.RequestCollector.ShouldFlush | agents/network_agent/nodes/collect_requests.py:17-32 | the four conditions in order, with the error for a request that has no severity tier |
| Requests.RequestCollector.GetBatch | agents/network_agent/nodes/collect_requests.py:34-42 | batches returned so far followed by the pending requests are all requests added, in order; the batch clock is absent exactly when nothing is pending |
| Requests.UrgentExactly | agents/network_agent/nodes/collect_requests.py:24-26 | the urgency scan fails or flushes by whichever of a missing tier and a tier of three comes first |
| Requests.RankingIsAStableSort | agents/network_agent/nodes/rank_requests.py:2-7 | the ranking is a permutation of its input, in rank order, and keeps the order of equal keys |
| Requests.RankingByUrgency | agents/network_agent/nodes/rank_requests.py:2-7 | no request stands behind a less urgent one, by severity tier, then criticality, then confidence, missing values counting as zero; requests equally urgent are exactly those of one key |
| Requests.StableRankingIsUnique | agents/network_agent/nodes/rank_requests.py:2-7 | there is only one such ranking, so those properties determine the result |
| Requests.GroupRequestsByZone | agents/network_agent/nodes/group_requests.py:4-17 | one batch per zone in order of first appearance, each the input filtered to its zone, represented by its first request's device |
| Requests.BatchMeaning | agents/network_agent/nodes/group_requests.py:4-17 | a batch holds requests of its zone only (cluster id, else zone id, else zone-unknown) and is represented by its first request's device, or the fallback number |
| Requests.GroupsPartition | agents/network_agent/nodes/group_requests.py:4-17 | the groups put together are a permutation of the input |
| Requests.GroupsAreRanked | agents/network_agent/nodes/group_requests.py:4-17 | a group of a ranked list is itself ranked and holds only its zone |
| Requests.GroupHeadsAreRanked | agents/network_agent/nodes/group_requests.py:11-17 | group heads come in rank order and the first one is the top request |
| Requests.CollectNode | agents/network_agent/graph.py:44-50 | passes on the first ten sanitised requests, everything exactly when there are at most ten |
| Requests.LosslessUpToTen | agents/network_agent/graph.py:44-61 | from raw requests to groups nothing is lost or repeated if and only if there are at most ten |
| Requests.FewGroupsMostUrgentFirst | agents/network_agent/graph.py:21-61 | however many requests come, there are at most five groups and the most urgent one collected heads the first |
| Requests.SanitizingSettles | agents/network_agent/graph.py:21-34 | sanitising twice is sanitising once, yields a known cluster and moves no request in the ranking |
| Requests.TargetPrecedence | agents/network_agent/graph.py:21-34 | the target is the first non-empty of cluster, sensor cluster and device id if that is a desert cluster, else cluster-desert-046 |

## Left out

- FastAPI plumbing, Redis, SQLAlchemy sessions, HTTP clients and Docker: I/O. The database is a sequence of rows and its
  query is specified by what it returns.
- The language model, the isolation forest and dataset generation: their verdicts are arbitrary inputs.
- IEEE float error and Gaussian tails: reals and bounded noise instead.
- Trigger texts, evidence items, evidence rows, detection numbers, related detections and run statistics of the engine:
  they feed no decision of the modelled code.
- The lookback computation and the reading query of a run: each sensor's readings are an input, as is a telemetry error.
- Parsing of sensor metadata into ranges and measurement types: the parsed values are inputs of the quality rule.
- Actor names, notes, timestamps and event rows of operator moves: only the status changes matter to deduplication.
- The cooldown helpers of deduplication, which nothing calls.
- SliceLifecycle.AtMostOnce: assumes the two atomic pairs above; preemption between their statements is not modelled.
- The watcher's own retry after a failed state poll, which only polls again, and notifications without a slice or state,
  which are acknowledged and ignored.
- Devices and incident contexts without a phone number, and empty contexts: every one modelled carries a phone number.
- Contents of grant and deny messages and the attachment requests of the slice API: only who hears what is modelled.
- How severity tiers are found, confidence scores, volume loss, segment metadata and the investigation graph: a case split each.
- InvestigationAgent.AnomalyInvestigationAgent.ProcessBatch: retry counts of concurrent investigations are not part of
  it; `IncidentTracker.RetriesCountTheRun` covers them cluster by cluster.
- SimulatorControl.SimulationState.InjectFault: only for clusters of the topology, which its only caller guarantees.
- SimulatorControl.SimulationState.ClearAllFaults: the order of the dictionary's keys is a parameter.
- Network overrides of faults, the simulated network state, temperature presets and batch assembly other than its
  timestamps: derived values that no modelled state depends on.
- The desert-cluster fields of a request besides its targets: the payload is carried along unread.
- Response agent, incident and maintenance services, dashboards and analytics: other programs of the repository.
