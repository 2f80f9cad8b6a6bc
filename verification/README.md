# Verified model of the anomaly engine and the autocomplete cache

The project models the decision core of Coremetry in Dafny and proves what it
keeps.

- **Detector tick.** `Detector` is the class that runs one tick over the table of
  problems: verdicts, closing of batch-load rows, clustering (`Clustering`),
  closing of stale clusters, and the remaining verdicts. Every attempt to store a
  row may fail; ranges over Go maps take their elements in any order. `IsTick`
  says exactly which rows a tick attempts to write, in which order, and
  `DetectorSafety` proves what holds of every tick and of every history of ticks,
  `ScanOrder` that no order of the snapshot or of a map matters, and `NewVerdicts`
  what becomes of a verdict to open; `RefusedCluster` is a run of three of them.
  `RowFate` says, from the reads alone, which rows a tick closes and which it opens,
  and `ClusterLaws` in which order clusters are formed.
  `Tick` takes its verdicts from the modelled decision (`Verdict.Decide`); the
  laws hold for any verdicts that resolve open rows only, and for any clusters
  that fit. The call graph ranking is an arbitrary function from a service to
  scored services. `Scan` shows that `IsTick` has a run for every snapshot and all
  reads whose verdicts resolve open rows only.
- **Decision arithmetic.** `Baseline`, `Decision`, `DwellGrid`, `ErrorRamp` and
  `Verdict` hold the median and MAD, the sensitivity gates, hysteresis, the dwell
  grid and the sustained-rise rule. `Behaviour` and `BehaviourScan` hold the
  seasonal engine: the split of a series, the judged windows, the batch gate with
  its lazy read, the fleet loop and the storm cap. `Calendar` counts business days.
  `VerdictMeaning`, `BehaviourMeaning` and `BaselineLaws` say what verdicts,
  candidates and baselines mean in terms of the samples.
- **Alert rules on VictoriaMetrics.** `AlertPlanner` has the source decision, the
  capped plan and the measure that reads its results; `Measures` says what a measured
  value means.
- **Autocomplete cache.** `Autocomplete` has the aggregate of one pod, the flush
  pipeline, Redis as sorted sets, sets and last-seen times, and the sweep;
  `AutocompleteLaws` compares any interleaving of several pods with a plain count
  of their spans; `Revival` follows a member from one half of a sweep to the other;
  `DistinctLaws` compares distinct values and attribute names with the spans;
  `Picker` has the reads and the pattern filter, `Glob` the
  matcher, `KeyLayout` the key strings.
- **Demo traces.** `TraceMesh` resolves hop trees and lays them out as spans.

`Sorting`, `Collecting` and `Problems` are shared: Go's string order and what a
sort guarantees, loops that keep something of some elements, and the rows of the
problem table.

Code that updates fields is a class here (`Detector`, `Store`, `Redis`,
`AlertVMTick`, `ActiveEvents`, `Trace`); its methods are proved against
functions and relations on values, and the laws are lemmas about those.

Findings, with the lemma that states each:

- `glob` compares runes before it looks for a star, so it agrees with the
  documented wildcards for every pattern exactly when the subject has no `*`
  (`Glob.AgreesIffSubjectHasNoStar`).
- "At most one active row per rule and service" can be lost in a tick whose
  snapshot failed (`NewVerdicts.FailedSnapshotExample`) or was cut at its row limit.
  It survives every tick that meets no verdict to open, outside the clusters and
  not muted, for a pair whose active row the snapshot misses; a tick that stores
  its openings keeps it only then (`NewVerdicts.UniqueUnlessUnseen`).
- A new verdict in a cluster is suppressed even when the row of that cluster was
  refused: then neither of the two is stored (`RefusedCluster.RefusedClusterExample`).
  It ends the tick behind an active cluster row exactly when the cluster's own write
  was accepted or the table had one before (`NewVerdicts.SuppressedBehindCluster`).
- A sweep is meant to drop only members not seen within the window, but it can drop
  one that was just seen (`Revival.RevivedMemberExample`). It does so exactly when an
  accepted flush between its two halves showed a member again that the first half
  found dead and that is still ranked (`Revival.LostIffRevived`); for services and
  operations that no other sweep touches meanwhile, the flush alone decides
  (`Revival.NameLostIffRevived`).
- Key strings of the cache collide for some names: the last-seen times of an
  attribute `card` and the distinct count of an attribute `ts` share one key
  (`KeyLayout.KeysShared`, `KeyLayout.CardAndTs`).
- The mid-month rule looks at fourteen days only: a month has such a day exactly
  when one of its days from the 15th to the 29th is a business day
  (`Calendar.MidMonthExists`). In a February of 28 days the search may end in March,
  and then no day of that February is marked by it (`Calendar.ClosedFebruary`).

## Model

| member | source | states |
|---|---|---|
| Detector.Detector.Tick | internal/anomaly/anomaly.go:520-763 | one tick attempts exactly the writes of `IsTick` with the detected clusters, over the snapshot it read, or over an empty one when it cannot be read, and the table is what the accepted ones made of it |
| Detector.Detector.Scan | internal/anomaly/anomaly.go:646-763 | the four phases in order over one snapshot, with every attempted row given exactly |
| Detector.Detector.OpenProblemsSnapshot | internal/chstore/problem.go:1809-1850 | open and acknowledged rows, each once, in some order: all of them unless the limit of 50000 was reached |
| Detector.Detector.Upsert | internal/anomaly/anomaly.go:926-960 | a refused write changes nothing, an accepted one replaces the row of its identity |
| Detector.CollectPending | internal/anomaly/anomaly.go:646-683 | for every service and tracked metric the verdict that reaches the apply phase, and no other |
| Detector.BatchLoadResolutions | internal/anomaly/batch_load.go:61-81 | the closed copies of exactly the active request-rate rows of batch services |
| Detector.Detector.ResolveBatchLoadProblems | internal/anomaly/batch_load.go:102-115 | nothing without confirmed settings; otherwise all of them, and their keys even where the write failed |
| Detector.GatherOpens | internal/anomaly/anomaly.go:693-717 | resolving keys, anomalous services, critical sources and new candidates of the pending verdicts |
| Detector.RecentOpenCandidates | internal/anomaly/clustering.go:57-82 | the rows opened within the join window, by service and metric |
| Detector.CountJoined | internal/anomaly/anomaly.go:726-732 | joined rows make their service anomalous and keep its critical severity |
| Detector.MergeTargets | internal/anomaly/clustering.go:98-118 | the rows to fold in, whatever order the sort leaves equal ones in |
| Detector.TargetsAre | internal/anomaly/clustering.go:98-118 | they are every row of a member or of the source, each identity once, by identity |
| Detector.VerdictsResolveOnlyOpen | internal/anomaly/verdict.go:55-165 | the modelled verdicts resolve open rows only |
| Detector.ClustersAlwaysFit | internal/anomaly/clustering.go:242-344 | detected clusters are disjoint, rooted at candidates and made of candidates |
| Detector.ClusterStartedAt | internal/anomaly/clustering.go:133-141 | the earliest positive start of the folded rows, and now without any |
| Detector.ClusterSeverity | internal/anomaly/clustering.go:161-171 | critical exactly when the source or a member is |
| Detector.Detector.ApplyCluster | internal/anomaly/clustering.go:355-413 | the cluster row first; only when it was stored, each folded row closed |
| Detector.Detector.ApplyClusters | internal/anomaly/clustering.go:355-413 | one block of writes per cluster; suppressed are its services, merged the rows whose closing was stored |
| Detector.Detector.MergeIntoCluster | internal/anomaly/clustering.go:421-434 | each target is closed with a note; merged are the stored ones |
| Detector.Detector.ResolveStaleClusters | internal/anomaly/clustering.go:459-475 | closes exactly the owned clusters whose source is not anomalous |
| Detector.Detector.ApplyPending | internal/anomaly/anomaly.go:747-763 | skips merged rows and suppressed new openings, applies every other verdict |
| Detector.Detector.ApplyOutcome | internal/anomaly/anomaly.go:895-1035 | touch, refresh, open or close one row, at most one write; a muted new drop writes nothing |
| Detector.ResolvesExisting | internal/anomaly/anomaly.go:1005-1030 | a verdict to resolve always finds the row it dereferences |
| RowFate.ClosedExactly | internal/anomaly/anomaly.go:646-763 | a shown row keeps identity, key, start and, outside cluster rows, severity; it is closed only as load of a batch service, as recovered, as recent in a cluster, or as the row of a cluster whose source is no longer anomalous, and always then when every write is accepted |
| RowFate.VerdictOnOpenRow | internal/anomaly/anomaly.go:895-1035 | a verdict on an open row makes one attempt on it; stored, the row is closed if and only if the verdict is to resolve, else it keeps status, start and severity; refused, it stays |
| RowFate.OpenedExactly | internal/anomaly/anomaly.go:895-985 | the new rows besides clusters are those of anomalous pairs without a row, outside clusters and not muted; each is open since now with the severity of its verdict |
| RowFate.OpenRowIsReached | internal/anomaly/anomaly.go:655-681 | the open row of a judged pair gets its verdict, that of a held pair is rewritten as it is |
| RowFate.AcceptedClusterRow | internal/anomaly/clustering.go:133-171 | an accepted cluster row is critical exactly when an anomaly of the cluster is, and a new one starts with the earliest recent row of its services, or now |
| DetectorSafety.NoRowWrittenTwice | internal/anomaly/anomaly.go:646-763 | no two stored writes of a tick are to the same row, for any snapshot, verdicts, clusters and refusals |
| DetectorSafety.StoredWritesLast | internal/anomaly/anomaly.go:646-763 | whatever a phase stored is what the table holds when the tick ends |
| DetectorSafety.MergedOnlyIntoStoredClusters | internal/anomaly/clustering.go:380-434 | a folded row comes after the stored row of its cluster, ends the tick resolved, and the cluster ends it active |
| DetectorSafety.StoredClustersStayActive | internal/anomaly/clustering.go:355-475 | a cluster opened or refreshed in a tick is not closed as stale in it |
| NewVerdicts.UniqueUnlessUnseen | internal/anomaly/anomaly.go:629-763 | at most one active row per rule and service after every tick whose reads, table and snapshot hold no verdict to open over an unseen active row; with all openings stored, only after those |
| NewVerdicts.ClustersAreKnown | internal/anomaly/anomaly.go:726-742 | the clusters in that condition follow from the reads and the snapshot alone |
| DetectorSafety.CompleteHidesNothing | internal/anomaly/anomaly.go:747-763 | with a complete snapshot no opening meets an active row of its key |
| NewVerdicts.FailedSnapshotDuplicates | internal/anomaly/anomaly.go:629-636 | with a failed snapshot and stored openings, an opening verdict for a pair with an active row leaves two |
| NewVerdicts.FailedSnapshotExample | internal/anomaly/anomaly.go:629-636 | a table, reads and a run of the tick for which this happens |
| DetectorSafety.TickKeepsTable | internal/anomaly/anomaly.go:646-763 | identities, cluster rows and uniqueness of the table are kept by a tick |
| DetectorSafety.AlwaysWellFormed | internal/anomaly/anomaly.go:520-763 | they hold in every state of every history of ticks over complete snapshots and of other writers that acknowledge, close, or open rows of keys without an active one |
| NewVerdicts.NewVerdictIsWritten | internal/anomaly/anomaly.go:747-763 | some attempt of the tick opens a row for a new verdict if and only if no cluster holds its service and the calendar does not mute it |
| NewVerdicts.RefusedClusterStillSuppresses | internal/anomaly/clustering.go:355-413 | with the cluster row refused, no attempt is made under the key of a new verdict in it, and the row of the cluster stays as it was |
| NewVerdicts.SuppressedBehindCluster | internal/anomaly/clustering.go:355-413 | the tick stores the cluster row of a suppressed verdict if and only if its first write was accepted; the row is active afterwards exactly then, or when it was before |
| RefusedCluster.RefusedClusterExample | internal/anomaly/anomaly.go:629-763 | a tick with three new verdicts in one cluster whose row is refused: the table stays empty |
| ScanOrder.CandidatesDistinct | internal/anomaly/anomaly.go:716-733 | no two candidates of a tick share service and metric |
| ScanOrder.ClustersIgnoreOrder | internal/anomaly/anomaly.go:726-742 | joined rows and clusters are the same for every order of the snapshot and of the maps |
| ScanOrder.TickIgnoresOrder | internal/anomaly/anomaly.go:646-763 | so is the table after the tick, for a store that answers each write the same way |
| DetectorSafety.ByKeyFacts | internal/chstore/problem.go:1654-1725 | a lookup finds the row of its key that started last, and none only when there is none |
| Clustering.TopBlame | internal/anomaly/clustering.go:257-269 | the first of the highest-scored other candidates, if it has a name |
| Clustering.IndexBySource | internal/anomaly/clustering.go:273-278 | every source with its blamers and the sum of their scores, in any order of iteration |
| Clustering.RankSources | internal/anomaly/clustering.go:286-304 | the sources that are candidates and large enough, by size, score and name |
| Clustering.PackClusters | internal/anomaly/clustering.go:306-343 | the greedy packing of the ranked sources with all candidates of their free blamers |
| Clustering.DetectAnomalyClusters | internal/anomaly/clustering.go:242-344 | the clustering of the candidates |
| Clustering.ClustersAreAPacking | internal/anomaly/clustering.go:242-344 | clusters are disjoint and large enough, members blame their source and carry every candidate of theirs once |
| Clustering.ClusteringIsMaximal | internal/anomaly/clustering.go:311-343 | afterwards no unassigned source has enough unassigned blamers for one more cluster |
| Clustering.ClusteringUnique | internal/anomaly/clustering.go:246-343 | the list of clusters and of their members depends neither on map order nor on the order of the candidates |
| ClusterLaws.BlamedIsHighest | internal/anomaly/clustering.go:257-269 | a blamed source is another anomalous service with the highest positive score |
| ClusterLaws.MostBlamedFirst | internal/anomaly/clustering.go:286-343 | clusters come by the number of services that blame their source, then by the sum of the blame |
| ClusterLaws.ClustersAreThree | internal/anomaly/clustering.go:311-343 | a cluster holds at least three services |
| Clustering.GreedyIsValid | internal/anomaly/clustering.go:311-343 | after every step of the packing no service is in two clusters |
| Verdict.EvaluateAnomaly | internal/anomaly/verdict.go:55-165 | the verdict of one service and metric |
| VerdictMeaning.OpensIff | internal/anomaly/verdict.go:55-165 | a verdict opens if and only if the whole dwell window lies far out on one side and no batch load mutes it, or the error ratio rose for its whole window, with enough volume |
| VerdictMeaning.ResolvesIff | internal/anomaly/verdict.go:55-165 | a verdict resolves if and only if a row is open, the newest bucket is back in the band of its metric, and the error ratio is not still rising |
| VerdictMeaning.BackAtMedian | internal/anomaly/verdict.go:137-144 | an open row of any metric but the error ratio resolves when its newest bucket is the median of its baseline |
| VerdictMeaning.StillRising | internal/anomaly/verdict.go:137-144 | an error ratio at its learned threshold with enough errors per second never resolves |
| VerdictMeaning.BaselineIff | internal/anomaly/verdict.go:66-87 | when a verdict is possible, and which samples are its baseline |
| VerdictMeaning.RampBaselineIff | internal/anomaly/error_ramp.go:142-158 | the sustained-rise rule does not learn from the window it judges |
| VerdictMeaning.MutedIff | internal/anomaly/verdict.go:97-120 | the batch gate mutes exactly the latency opening whose every dwell bucket carried twice the median load |
| VerdictMeaning.FlatHistory | internal/anomaly/anomaly.go:205-249 | the deviation assumed for a history that never moved |
| VerdictMeaning.VerdictsBalance | internal/anomaly/verdict.go:55-165 | over any run of verdicts, with any reads and settings, opens minus resolves is 1 while a row is open and 0 otherwise |
| VerdictMeaning.WatchNeverFlaps | internal/anomaly/verdict.go:55-165 | after a resolve nothing opens over the same baselines before a dwell window of newer buckets, or a window of the sustained-rise rule |
| Verdict.ResolvesOnlyOpenRows | internal/anomaly/verdict.go:55-165 | only an open row is resolved, and never while it wants to stay open |
| Verdict.BatchGateLeavesOpenRowsAlone | internal/anomaly/verdict.go:55-165 | with an open row the batch-load gate changes no verdict |
| Verdict.KnobsNeverOpen | internal/anomaly/verdict.go:55-165 | raising any sensitivity knob never turns a verdict into open |
| Verdict.TrimTrailingSilent | internal/anomaly/anomaly.go:1066-1075 | the series up to its last bucket that is not silent |
| Verdict.BatchRatesUnderLoad | internal/anomaly/batch_latency.go:91-102 | every bucket carries twice the median load |
| Verdict.BatchUnderLoad | internal/anomaly/batch_latency.go:125-142 | the same against the rates that belong to the chosen baseline |
| Decision.EvalWindow | internal/anomaly/anomaly.go:367-388 | all samples open in one direction, all lie in the resolve band, and the newest verdict |
| Decision.WindowBlocker | internal/anomaly/verdict.go:226-244 | the gate, or the change of direction, that stops the first sample to stop the window |
| Decision.BlockerAgrees | internal/anomaly/verdict.go:196-223 | the explanation gates stop a sample exactly when the decision does |
| Decision.EffectiveMAD | internal/anomaly/anomaly.go:205-249 | always positive, never under its floor |
| VerdictMeaning.SampleOpensIff | internal/anomaly/anomaly.go:291-340 | which samples open upwards and which downwards, in deviations, relatively and absolutely |
| Decision.KnobsAreAntitone | internal/anomaly/anomaly.go:205-388 | a window that opens with stricter knobs opens with laxer ones |
| Decision.LargerValueStaysOpen | internal/anomaly/anomaly.go:291-340 | upwards, a larger value never closes a sample that opened |
| Decision.OpenExcludesResolved | internal/anomaly/anomaly.go:291-358 | a sample that opens is outside the resolve band |
| Decision.OpensBalanceResolves | internal/anomaly/anomaly.go:367-406 | over any run opens minus resolves is 1 while a row is open and 0 otherwise |
| Decision.NoReopenBeforeDwell | internal/anomaly/anomaly.go:367-406 | after a resolve nothing opens before dwell newer buckets |
| Baseline.MedianInMajority | internal/anomaly/anomaly.go:1807-1818 | a strict majority in an interval keeps the median in it |
| Baseline.RobustBaseline | internal/anomaly/anomaly.go:1794-1818 | and the MAD at most as wide, whatever the other samples are |
| Baseline.HalfWithinOneMAD | internal/anomaly/anomaly.go:1794-1818 | at least half of the samples lie within one MAD of the median |
| Baseline.BaselinePermutes | internal/anomaly/anomaly.go:1794-1818 | median and MAD do not depend on the order of the samples |
| BaselineLaws.BaselineMirrors | internal/anomaly/anomaly.go:1794-1818 | a history turned upside down has the negated median and the same deviation |
| BaselineLaws.MedianOfSorted | internal/anomaly/anomaly.go:1807-1818 | the middle of a sorted history, or the mean of its two middles |
| DwellGrid.PadTrailingSilence | internal/anomaly/anomaly.go:1273-1284 | one zero for every bucket after the last observation |
| DwellGrid.FillDwellGrid | internal/anomaly/anomaly.go:1303-1345 | the grid of the dwell window, or padding where the times are off the grid or misaligned |
| DwellGrid.TailIsTheGrid | internal/anomaly/anomaly.go:1303-1345 | the tail has one element per bucket: the observed value or zero |
| DwellGrid.ObservationKept | internal/anomaly/anomaly.go:1303-1345 | no observation is lost or moved off its bucket |
| DwellGrid.SameLength | internal/anomaly/anomaly.go:1303-1345 | values and rates stay aligned |
| DwellGrid.NoGapMeansPadding | internal/anomaly/anomaly.go:1286-1345 | without an internal gap the grid is the padding |
| DwellGrid.OpensOnlyOnObservedBuckets | internal/anomaly/anomaly.go:1286-1345 | an upward metric opens only when every dwell bucket was observed |
| ErrorRamp.Check | internal/anomaly/error_ramp.go:99-140 | the result of the sustained-rise rule |
| ErrorRamp.SuffixIsLongest | internal/anomaly/error_ramp.go:120-140 | the counted suffix is at least k long exactly when the last k buckets breach |
| ErrorRamp.HoldsMeansWholeWindow | internal/anomaly/error_ramp.go:99-140 | the rule holds exactly when its whole window breaches |
| ErrorRamp.TrafficAloneCannotHold | internal/anomaly/error_ramp.go:99-140 | one ratio under the threshold keeps it from holding at any traffic |
| ErrorRamp.PercentileCovers | internal/anomaly/error_ramp.go:75-89 | a share p of the samples is at or below their p-percentile |
| ErrorRamp.PercentileIsLeast | internal/anomaly/error_ramp.go:75-89 | and no smaller value has that share |
| ErrorRamp.ThresholdIsLargest | internal/anomaly/error_ramp.go:75-94 | the largest of factor times median, p90 and minimal ratio |
| ErrorRamp.NormalizedIsValid | internal/chstore/anomaly_sensitivity_error_ramp.go:70-78 | settings in range are kept, the others replaced by ones in range |
| ErrorRamp.ThresholdAboveBaseline | internal/anomaly/error_ramp.go:75-94 | nine tenths of the baseline are at or below the threshold |
| Behaviour.SplitBehaviorSeries | internal/anomaly/behavior.go:256-273 | judged rows in order; each hour's older values in order and its number of distinct days |
| Behaviour.SplitConserves | internal/anomaly/behavior.go:256-273 | every row is in exactly one place |
| Behaviour.JudgedRowsNeverCount | internal/anomaly/behavior.go:244-273 | series that differ in judged rows only have the same baselines |
| BehaviourScan.EvalBehaviorWindow | internal/anomaly/behavior.go:421-516 | a candidate exactly when every slice moved the same way over its own hour's history and the last one matters |
| BehaviourScan.EvalBehavior | internal/anomaly/behavior.go:357-385 | the lasting signal before the seasonal one, nothing under the volume floor |
| BehaviourMeaning.JudgedIsSound | internal/anomaly/behavior.go:357-516 | a candidate rises or falls as its current value does against its baseline, as does every slice of its window, and is not under the operator's floors |
| BehaviourMeaning.FleetIsSound | internal/anomaly/behavior_scan.go:234-279 | so do all candidates of the fleet, before and after the cap |
| BehaviourMeaning.CandidateIsFounded | internal/anomaly/behavior.go:415-516 | a candidate rests on enough history in every slice, above the band of the hour, and on a service that is heard; its onset is its first slice |
| BehaviourMeaning.ErrorFloors | internal/anomaly/behavior.go:471-535 | an error candidate under the floor of its rate rose with many errors in every slice |
| BehaviourMeaning.LastingShiftIsFound | internal/anomaly/behavior.go:357-385 | a whole regime window at the ratio, up or down, yields a lasting candidate of that way |
| BehaviourMeaning.SeasonalRiseIsFound | internal/anomaly/behavior.go:357-385 | a whole seasonal window above the limit yields a candidate |
| BehaviourMeaning.MetricMeaning | internal/anomaly/behavior.go:129-145 | percentage of failed spans, spans per second, p99 |
| BehaviourMeaning.HalfQuantileIsMedian | internal/anomaly/behavior.go:560-579 | the 0.5-quantile is the median |
| BehaviourScan.QuantileCovers | internal/anomaly/behavior.go:565-579 | the q-quantile is at least as high as that share of the samples |
| BehaviourScan.QuantilesAgree | internal/anomaly/alert_vm_query.go:320-340 | the quantiles of alert rules and of the behaviour engine are the same |
| BehaviourScan.WindowUnderLoad | internal/anomaly/batch_latency.go:152-166 | every judged slice carried twice the median load of its hour |
| BehaviourScan.ActiveEvents.BatchLatencyGate | internal/anomaly/batch_latency.go:181-203 | a candidate stays unchanged or goes; events are read only for one the load explains |
| BehaviourScan.ActiveEvents.Active | internal/anomaly/behavior_scan.go:288-302 | at most one read, and the answer of that read |
| BehaviourMeaning.LoadedRiseIsMuted | internal/anomaly/batch_latency.go:146-203 | a latency rise of a batch service goes when every slice of both windows carried twice the median load and no event is active |
| BehaviourScan.GateOnlyRemoves | internal/anomaly/batch_latency.go:181-203 | the gate only removes latency rises of batch services |
| BehaviourScan.BehaviorFleetCandidates | internal/anomaly/behavior_scan.go:234-279 | the candidate of every service and metric once, at most one read of events |
| BehaviourScan.CapBehaviorCandidates | internal/anomaly/behavior.go:648-662 | the top of the ranking |
| BehaviourScan.CapKeepsTop | internal/anomaly/behavior.go:648-662 | no dropped candidate outranks a kept one |
| BehaviourScan.CappedListIsUnique | internal/anomaly/behavior_scan.go:244-277 | the capped list is the same for every order of the services |
| Calendar.SpecialKindOn | internal/chstore/anomaly_calendar.go:209-228 | the strongest kind among the rows and fixed holidays of a day |
| Calendar.BusinessDayIff | internal/anomaly/calendar.go:51-58 | neither Saturday nor Sunday nor a holiday |
| Calendar.KindHasSource | internal/chstore/anomaly_calendar.go:209-228 | the kind of a day is that of one of its rows or of its fixed holiday |
| Calendar.NoRowIsStronger | internal/chstore/anomaly_calendar.go:213-221 | no row that covers a day is stronger than its kind |
| Calendar.IsAutoMonthEnd | internal/anomaly/calendar.go:63-77 | a business day with fewer than n business days after it in its month |
| Calendar.MonthEndMarksTheLast | internal/anomaly/calendar.go:63-77 | exactly the last business days of the month, as many as asked for or as there are |
| Calendar.NextBusinessDayFrom | internal/anomaly/calendar.go:95-103 | the first business day, or the fifteenth day unseen |
| Calendar.HolidayAhead | internal/anomaly/calendar.go:127-138 | a closing day within a fortnight with no business day between |
| Calendar.AutoRuleOn | internal/anomaly/calendar.go:107-140 | the days of the four automatic rules |
| Calendar.RuleDayIff | internal/anomaly/calendar.go:107-140 | the days the rules mark, in terms of the business days around them |
| Calendar.MidMonthIsUnique | internal/anomaly/calendar.go:118-120 | at most one business day per month is its middle |
| Calendar.MidMonthExists | internal/anomaly/calendar.go:95-120 | there is one exactly when some day of the month from the 15th to the 29th is a business day |
| Calendar.ClosedFebruary | internal/anomaly/calendar.go:95-120 | a February closed from its 15th on, in which the search ends on the first of March and no day is marked |
| Calendar.CalendarDayKind | internal/anomaly/calendar.go:81-92 | a row of the calendar before the automatic rules |
| AlertPlanner.FamilyFor | internal/anomaly/alert_vm.go:238-270 | the first family that has the service, none unknown before it, and why there is none |
| AlertPlanner.KindsOK | internal/anomaly/alert_vm.go:273-291 | all kinds are measurable, and the first reason when not |
| AlertPlanner.Decide | internal/anomaly/alert_vm.go:294-315 | VictoriaMetrics exactly when configured, supported, long enough, present and measurable; otherwise the first reason in that order |
| AlertPlanner.AlertVMPlan | internal/anomaly/alert_vm.go:332-396 | plan and skipped list the demand once by window, family and kind; the plan is its prefix of at most 24 |
| AlertPlanner.PlanUnique | internal/anomaly/alert_vm.go:332-396 | the plan does not depend on the order of the needs |
| AlertPlanner.PlanIsCapped | internal/anomaly/alert_vm.go:332-396 | nothing is skipped before the budget is used |
| AlertPlanner.PlannedOrSkipped | internal/anomaly/alert_vm.go:294-396 | every query behind a registered rule on VictoriaMetrics is planned or skipped |
| AlertPlanner.AlertVMTick.Prepare | internal/anomaly/alert_vm.go:409-497 | every planned query has its values or a reason, every skipped one the budget reason; failed kinds back off for 300 seconds |
| AlertPlanner.FailedKindsRest | internal/anomaly/alert_vm.go:273-396 | a kind that failed is neither planned nor used before its back-off is over |
| AlertPlanner.AlertVMTick.Measured | internal/anomaly/alert_vm.go:512-553 | a VictoriaMetrics value and rounded request count exactly when all required kinds were answered, computed from them; otherwise why not |
| AlertPlanner.NeverFallsThrough | internal/anomaly/alert_vm.go:512-553 | in a prepared tick the measure of a registered rule never reaches its last resort |
| AlertPlanner.AlertVMTick.MeasureRule | internal/anomaly/alert_vm.go:500-510 | that measure, counted under its metric and the label of its source |
| Measures.QuantileMeaning | internal/anomaly/alert_vm_query.go:87-104 | a quantile is the answer for its own share, in milliseconds |
| Measures.QuantilesInOrder | internal/anomaly/alert_vm_query.go:191-235 | quantiles answered in order are measured in order |
| Measures.RateMeaning | internal/anomaly/alert_vm_query.go:191-235 | requests per second times the window are the requests |
| Measures.ErrorsMeaning | internal/anomaly/alert_vm_query.go:191-235 | the error count is the errors |
| Measures.ErrorRateMeaning | internal/anomaly/alert_vm_query.go:191-235 | the rate times the requests is a hundred times the errors, capped at 100 |
| Measures.AverageMeaning | internal/anomaly/alert_vm_query.go:191-235 | the average times the requests is the sum of durations in milliseconds |
| Measures.CountMeaning | internal/anomaly/alert_vm.go:545-553 | the count is the nearest integer to the requests |
| Measures.FamilyMeaning | internal/anomaly/alert_vm.go:238-315 | the family used holds the service and can measure the metric; none before it does, or could not be read |
| Measures.PlannedIsNeeded | internal/anomaly/alert_vm.go:332-396 | no query is planned that no rule needs, for too short a window, a family without services, or a kind that backs off |
| AlertPlanner.OneFamily | internal/anomaly/alert_vm.go:238-270 | families are never added up |
| AlertPlanner.ErrorRateIsPercentage | internal/anomaly/alert_vm_query.go:195-234 | an error rate is present exactly with traffic and lies in 0 to 100 |
| Glob.Glob | internal/acache/acache.go:791-818 | decides the relation the loop really implements, in at most (\|s\|+1)(\|p\|+1) steps |
| Glob.LiteralFirstIsSound | internal/acache/acache.go:791-818 | a match is a match of the documented wildcards |
| Glob.LiteralFirstIsComplete | internal/acache/acache.go:791-818 | none is missed for a subject without a star |
| Glob.AgreesIffSubjectHasNoStar | internal/acache/acache.go:766-818 | it agrees with them for all patterns if and only if the subject has no star |
| Picker.MatchPattern | internal/acache/acache.go:770-777 | a bare term is a substring, a pattern matches all |
| Picker.PatternMeaning | internal/acache/acache.go:766-777 | both are the wildcard pattern the term stands for |
| Picker.ReadRank | internal/acache/acache.go:670-693 | the top of the matching members and their number; reading the top directly answers the same |
| Picker.GetAttributeValues | internal/acache/acache.go:717-752 | the top matching values with counts, a distinct count, or a miss |
| Picker.ListedMeaning | internal/acache/acache.go:717-752 | listed values match and carry their scores, the highest first, each once, and none that matches is missing under the limit |
| Picker.RankedByScore | internal/acache/acache.go:670-693 | the ranked members by descending score |
| Picker.RankedOrder | internal/acache/acache.go:670-693 | every member once, highest first |
| Autocomplete.ApplyDefaults | internal/acache/acache.go:195-220 | limits are positive, set ones are kept |
| Autocomplete.DefaultOptions | internal/acache/acache.go:195-220 | the limits without settings |
| Autocomplete.Store.ObserveSpan | internal/acache/acache.go:318-379 | the aggregate after one more span |
| Autocomplete.Store.ObserveAttr | internal/acache/acache.go:394-424 | one attribute: the key always, the value as its policy and the limits allow |
| Autocomplete.BuildPipeline | internal/acache/acache.go:472-575 | for every key its increments once, its set or trim, its registration; the names and distinct values |
| Autocomplete.Store.Flush | internal/acache/acache.go:462-583 | the aggregate is empty and its pipeline was carried out, in part when it failed |
| Autocomplete.Store.Sweep | internal/acache/acache.go:608-638 | registered keys lose what was last seen before the cutoff |
| Autocomplete.ExecLocal | internal/acache/acache.go:472-580 | a pipeline acts on every key separately |
| Autocomplete.TidyKept | internal/acache/acache.go:318-424 | a pipeline never adds an empty set |
| AutocompleteLaws.NamesConserved | internal/acache/acache.go:318-583 | rank plus pending deltas is the number of spans, for services and operations, over any interleaving of pods and accepted flushes |
| AutocompleteLaws.ValuesConserved | internal/acache/acache.go:394-546 | the same for tracked values within the two limits |
| DistinctLaws.DistinctConserved | internal/acache/acache.go:394-583 | with accepted flushes, exactly the distinct values that spans showed are stored or pending, within the limit, whatever is swept |
| DistinctLaws.NothingInvented | internal/acache/acache.go:394-583 | no distinct value is ever collected that no span showed, whatever fails |
| DistinctLaws.NamesKnown | internal/acache/acache.go:394-530 | the known attribute names are the ones that spans showed a value of |
| DistinctLaws.PodsStayBounded | internal/acache/acache.go:394-424 | no pod ever holds more pending values of an attribute than the limit |
| DistinctLaws.AttributesIff | internal/acache/acache.go:335-379 | a span shows a harvested attribute in its column only, any other in its arrays |
| AutocompleteLaws.NeverTooMany | internal/acache/acache.go:462-638 | never more than the spans showed, whatever fails, is trimmed or swept |
| AutocompleteLaws.HarvestedOnce | internal/acache/acache.go:342-379 | a harvested key counts once per span, whatever the arrays repeat |
| AutocompleteLaws.PipelineEffect | internal/acache/acache.go:500-575 | an accepted pipeline adds all deltas in any order of iteration and then trims |
| AutocompleteLaws.TrimKeepsTop | internal/acache/acache.go:543-587 | a trim keeps the n highest, none below a removed one |
| AutocompleteLaws.FlushKeepsTop | internal/acache/acache.go:532-583 | an accepted flush leaves a touched tracked key with at most topN values, the highest after its deltas were added |
| AutocompleteLaws.RanksStayBounded | internal/acache/acache.go:532-638 | no tracked key ranks more than topN values in any state that whole pipelines and sweeps reach |
| AutocompleteLaws.WindowKept | internal/acache/acache.go:487-638 | in window mode ranked members have times and sets equal ranks, in every reachable state and between the halves of a sweep |
| AutocompleteLaws.SweepLeavesNothingStale | internal/acache/acache.go:608-638 | after the delete half no ranked member is older than the cutoff; exactly the ones found dead left |
| Revival.NoneLostIffStillStale | internal/acache/acache.go:620-638 | a delete half loses no fresh member if and only if all members found dead and still ranked are still stale |
| Revival.LostIffRevived | internal/acache/acache.go:462-638 | over any run between the halves, a ranked member last seen at the cutoff or later is lost if and only if it was found dead and an accepted flush of the run carried it |
| Revival.NameLostIffRevived | internal/acache/acache.go:462-638 | for services and operations without another sweep of their key, if and only if it was found dead and such a flush carried it |
| Revival.RevivedMemberExample | internal/acache/acache.go:462-638 | a run with one pod in which it happens |
| AutocompleteLaws.SweepIsExact | internal/acache/acache.go:608-638 | with nothing in between exactly the stale members leave |
| KeyLayout.KeysShared | internal/acache/acache.go:61-73 | two things share a key string if and only if their names collide |
| KeyLayout.PlainNamesKeepApart | internal/acache/acache.go:61-73 | names without the reserved prefixes and suffix never do |
| KeyLayout.CardAndTs | internal/acache/acache.go:61-73 | a collision of two ordinary attribute names |
| TraceMesh.ResolveHop | cmd/demo/mesh.go:294-326 | a tree of the same shape, every healthy hop as long as its kids need |
| TraceMesh.Trace.EmitHop | cmd/demo/mesh.go:353-451 | the spans of one hop and of its kids |
| TraceMesh.Trace.EmitKids | cmd/demo/mesh.go:455-463 | kids one after the other, or all at once |
| TraceMesh.HopShown | cmd/demo/mesh.go:353-463 | emitting a hop adds its one or two spans and those of all its kids under its own span, and no others |
| TraceMesh.KidsInTurn | cmd/demo/mesh.go:455-463 | parallel kids start together, sequential ones after each other |
| TraceMesh.KidFits | cmd/demo/mesh.go:305-324 | every kid ends within the time its parent reserved |
| TraceMesh.EmittedNested | cmd/demo/mesh.go:353-463 | emitting a hop where there is room keeps the trace nested |
| TraceMesh.BuildMeshTrace | cmd/demo/mesh.go:526-535 | every trace of every tree nests: spans lie in their parent, start after a publish they follow, and show every hop of the tree |
| Sorting.SortedUnique | internal/anomaly/clustering.go:293-342 | two sorted orders of elements that can all be told apart are the same |
| Problems.MetricRuleInjective | internal/anomaly/anomaly.go:896-896 | a service's metrics have different rules |
| Problems.ClusterIdInjective | internal/anomaly/clustering.go:155-157 | different sources have different cluster rows |
| Problems.MetricRuleIsNoCluster | internal/anomaly/clustering.go:449-452 | a metric row is never a cluster row |

## Left out

- Detector.Detector.Tick: the phases after the pending verdicts and the early returns before the first one are
  not modelled, and no other writer acts within a tick.
- Detector.Detector.OpenProblemsSnapshot: the memo that may serve a snapshot up to five seconds old is not modelled.
  Only writes of its own process drop it, so a row that another process closed in that time can be written back open.
- Detector.Detector.Upsert: a refused write leaves the table alone; a write that reached the store although it was
  reported as failed is not modelled.
- Detector.Detector.ApplyOutcome: value, comparator, description and evidence of a row are one note; notifications,
  incidents and the calendar's own event are not modelled.
- Detector.CollectPending: the reads of series and the choice between VictoriaMetrics and span series are inputs.
- DetectorSafety.AlwaysWellFormed: other writers are assumed to open rows only where their key has no active one;
  new identities are assumed to be new, and every tick reads a complete snapshot.
- The service-silent, heap, subject and exception-storm phases after the pending verdicts.
- The keys `rule|service` of the tick's maps are pairs, so a `|` in a name cannot join two of them.
- Clusters of external series: their rows appear only as rows this detector does not own.
- Float rounding, NaN and infinities: values are reals; times and day numbers are integers without overflow.
- BehaviourScan.EvalBehavior: the logarithm in the ranking score is a given function of score and ratio.
- BehaviourScan.BehaviorFleetCandidates: deploy correlation and the count of scarce buckets are not modelled.
- The filter that drops calendar days from behaviour baselines, and the split of behaviour rows by source.
- Calendar.IsAutoMonthEnd: months are given by first day and length; time zones and daylight saving are not modelled.
- AlertPlanner.AlertVMPlan: query text is reduced to whether it can be written; the service filter inside it and
  discovery are not modelled.
- Autocomplete.BuildPipeline: the commands that renew the expiry of a key are not modelled.
- Autocomplete.Store.Flush: key expiry and runtime changes of the policy are not modelled; distinct counts are
  exact sets.
- Autocomplete.Store.Sweep: a pipeline that fails half way is treated like one that was not sent.
- AutocompleteLaws.WindowKept: pipelines are carried out whole or not at all there, and all pods share one clock.
- Revival.LostIffRevived: the same holds of the run between the halves.
- VerdictMeaning.WatchNeverFlaps: it compares ticks over equal baselines; when the baseline itself moves, a bucket
  may be in the band for one tick and far out for the next.
- Picker.MatchPattern: lower-casing is a given function from rune to rune; lengths count runes.
- TraceMesh.Trace.EmitHop: names, attributes, status, metrics and links of spans are not modelled.
- Prometheus text, ClickHouse queries, Redis client calls, HTTP, logging, goroutine pools and the other commands of
  the repository.
