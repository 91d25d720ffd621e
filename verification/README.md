# HyperTrace: verified model of detection, decision and remediation

HyperTrace detects cost anomalies, decides how much authority they earn, asks a human or acts,
patches the cluster, and can roll the patch back. This project models that pipeline in Dafny and
proves what it guarantees over whole runs.

Two cores and one side machine are modelled.

* **The online detector.** `Stats.dfy` and `Rebaselining.dfy` hold Welford's accumulator and what
  learning does to a score; `Confidence.dfy` the capped score; `Detector.dfy` the detector;
  `Flagging.dfy` the service around it, which stores and announces what it finds;
  `DetectorRuns.dfy` and `DetectorGuards.dfy` its behaviour over any stream of messages.
* **The authority, ledger and executor protocol.** `Ledger.dfy` (tables and bus), `Cluster.dfy` and
  `Undo.dfy` (the three operations and their inverses), `Policy.dfy`, `Correlation.dfy` and
  `Decision.dfy` (decision-policy), `Api.dfy` (approve and roll back), `Executor.dfy` (gates and
  outcome rows). `Protocol.dfy` puts all services, crashes, redelivery and the clock into one state
  machine. `LedgerLaws.dfy` says what each row is and when it is written. `LedgerSafety.dfy`,
  `BlastRadius.dfy`, `Requests.dfy`, `OriginalLimit.dfy`, `OriginalCeiling.dfy`, `Authority.dfy` and
  `Guarantees.dfy` prove its invariants; `LostLimits.dfy` says exactly when a CPU limit is lost;
  `PatchRate.dfy` what the ceilings mean for the patches themselves; `LedgerUndo.dfy` that the
  ledger undoes whole runs, rollbacks included; `SystemHistory.dfy` carries the results about the
  detector and the correlation maps into it; `Refinement.dfy` shows that the mutable services take
  its steps; `Scenarios.dfy` holds concrete runs in which a documented promise fails.
* **The alert fan-out.** `AlertStream.dfy`.

Code that updates objects is modelled as classes (`Detector.Engine`, `Stats.BucketStats`,
`Flagging.Service`, `Cluster.Live`, `Ledger.Database`, `Ledger.Bus`, `Executor.Service`,
`Decision.Service`, `Api.Service`, `AlertStream.Broadcaster`). Each method is proved equal to a
function on values, or, for the broadcaster and its queues, to take the steps of
`AlertStream.HubStep`; the theorems are about those functions.

## Reading the model

* Floats are reals. The square root is a parameter `root` of which only `IsRoot` is used.
  `round(x, 3)` is exact rounding with ties to even.
* Times are integers. `executed_at` and the gates use the system clock, which never runs backwards.
* A row's id is its position in the ledger. Foreign keys and the `mode` check are modelled: an
  insert that violates them raises and leaves no row.
* The executor is one serial consumer. Its handler is two steps, gate and finish; other services,
  time and crashes come in between. Any published request may be delivered any number of times, in
  any order (`Deliver`), and any request at all may be injected (`Inject`). `Finish(false)` is a
  crash after the patch and before the insert; `Abort` is a crash or an API error before the patch.
* A detector message is handled atomically. The cost and traffic consumers are separate threads, but
  they share only the latest traffic score, read once and written once under a lock, and write
  different rows of the baselines table, so every interleaving equals one of whole handlers.
* A decision or API handler that dispatches is two steps: it commits its row (`DecideOn`,
  `ApproveCall`, `RollbackCall`) and later publishes the request (`Publish`), which the broker may
  turn down. In between any other step may happen, and the handler may die (`Die`); a handler whose
  failure row cannot be stored ends the same way. What a handler reads before its insert it reads in
  the insert's step.
* HPA names are unique within a namespace (`Cluster.WellFormed`). No assumption is made about the
  protected prefixes: the namespace is a prefix of the service id, so a protected namespace is
  never missed; slash-free prefixes are needed only for the converse.
* `because`, `checked` and `fate` in `Protocol.System` are history variables. `FateIsWhatHappened` ties
  `fate` to the steps taken.

## Where the code and its documentation differ

* Autonomous dispatch is documented for confidence of 0.85 and above, but the detector always scores
  without corroboration, which caps confidence at 0.80, and decision-policy never raises it. In runs
  whose anomalies come from the detector, nothing is dispatched without a human
  (`DetectorFedRunsAskAHuman`).
* The branch that publishes `legitimate_traffic_growth` is unreachable: a reading cannot qualify and
  be explained by traffic at once (`FindingFacts`).
* A spike of any size with neither decoupling nor corroboration is documented to reach 0.40. It
  reaches 0.50 on a mature baseline (`CoupledSpikeReachesHalf`) and never more, and it stays at 0.40
  exactly while magnitude and maturity weigh at most 0.4005 together (`CoupledIsAdvisory`): from
  eight standard deviations on, up to three samples (`SaturatedCoupledSpike`). It is advisory
  throughout.
* A recent deployment is recorded under `namespace/pod`, while anomalies name `namespace/workload`:
  only pods carrying the workload's own name are ever correlated (`OnlyPodsNamedAsWorkloadCount`). A
  rollout of `shop/web` whose pod is `web-7d9f` goes unnoticed (`RolloutGoesUnnoticed`).
* `rolled_back` rows are meant to count towards the per-service ceiling, but rollback requests carry
  an empty service, so they never count against the service they touched
  (`RolledBackSparesService`, `RollbackIsFreeForTheShop`).
* The ceilings are documented to bound executions. They bound stored rows: a window holds at most
  the ceiling of patches plus those whose row was not stored (`PatchesBounded`), so at most the
  ceiling while the services alone feed the queue and the executor does not die between patch and
  row (`FedPatchesWithinCeilings`). Two requests with action ids that were never committed cap two
  Deployments at once under ceilings of 1 (`UnknownActionsEscapeCeilings`).
* Throttling is documented to keep the original limit for rollback. Every recorded row does
  (`OriginalLimitNeverLost`), but the patch comes before the insert. A Deployment is left changed with
  nothing to roll back exactly when a delivery capped it, with no reference recorded before, and
  its row was not stored (`LimitLostIff`): the executor died in between, or the database refused the row because the
  request named an action or anomaly that was never committed, or an unknown mode
  (`FinishRecordsIff`, `UnknownActionLosesLimit`). The redelivered throttle is a no-op
  (`UnrecordedIsNotRetried`). While the services alone feed the queue and the executor does not die
  there, no limit is lost (`LimitsStayRecoverable`).
* Rolling back a replica ceiling restores it newest first (`UndoRestoresLimits`,
  `LedgerUndoesRun`), or in any order whose last reference recorded the original
  (`LastRollbackWins`); oldest first does not (`OldestFirstLosesCeiling`). The earliest recorded
  freeze of an HPA is such a reference exactly when the last freeze that went unrecorded before it,
  if any, left the original ceiling (`EarliestFreezeRestoresIff`, `CeilingLostIff`); fed by the
  services and with no death between patch and row it always is (`CeilingsStayRecoverable`). A
  freeze at 4 that is lost, a report of 2 replicas and a redelivery put 4 on record where 10 was
  (`LostPinIsRecordedAsOriginal`). The API can never reach an executed action once a newer one exists
  for the same anomaly (`SupersededActionUnreachable`).
* A failed publish is documented to leave a `dispatch_failed` row. It does in the API, unless the
  process dies first; decision-policy only raises, so its `dispatched` row is then left without
  request and without failure row (`DispatchAnsweredIff`, `TurnedDownDispatchIsSilent`).

## Model

| member | source | states |
|---|---|---|
| Stats.BucketStats.FromDict | services/behaviour-analysis/app/stats.py:38-43 | A loaded accumulator holds exactly the stored moments, so storing and loading lose nothing |
| Stats.BucketStats.Update | services/behaviour-analysis/app/stats.py:19-24 | The in-place update is one step of the recurrence that WelfordIsBatch proves equal to batch statistics |
| Stats.BucketStats.Score | services/behaviour-analysis/app/stats.py:26-36 | The score read from the accumulator is the z-score of the stored moments, zero without spread |
| Stats.WelfordIsBatch | services/behaviour-analysis/app/stats.py:14-24 | After any sequence of updates the state is the count, mean and sum of squared deviations of the values seen; the spread is never negative |
| Stats.LearnExtendsBatch | services/behaviour-analysis/app/stats.py:19-24 | One update turns the batch statistics of xs into those of xs with the value appended |
| Stats.WelfordIgnoresOrder | services/behaviour-analysis/app/stats.py:19-24 | Two orders of the same readings store the same state |
| Rebaselining.ZScoreSquared | services/behaviour-analysis/app/stats.py:26-36 | z squared times the spread is the squared deviation times n - 1, with the sign of the deviation; zero when n < 2 or there is no spread |
| Rebaselining.LearningShrinksScore | services/behaviour-analysis/app/main.py:103-106 | Learning an off-mean value strictly shrinks the absolute score that value gets next |
| Rebaselining.CopiesBoundScore | services/behaviour-analysis/app/stats.py:19-36 | After k learned copies of v on top of n samples, z(v) squared is below n / k |
| Confidence.ScoreBounds | services/behaviour-analysis/app/confidence.py:52-65 | Confidence lies between 0 and 1 for all scores, corroborations and sample counts |
| Confidence.ScoreMonotone | services/behaviour-analysis/app/confidence.py:43-78 | More cost, CPU, corroboration or samples never lowers confidence or the authority it earns, more traffic never raises them |
| Confidence.UncorroboratedCap | services/behaviour-analysis/app/confidence.py:52-61 | Without corroboration confidence is at most 0.80 and never autonomous |
| Confidence.CoupledIsAdvisory | services/behaviour-analysis/app/confidence.py:9-16 | Neither decoupled nor corroborated scores at most 0.50 and earns alert-only, however large the spike; at most 0.40 iff magnitude and maturity weigh at most 0.4005 |
| Confidence.SaturatedCoupledSpike | services/behaviour-analysis/app/confidence.py:9-16 | For such a spike of eight deviations or more, at most 0.40 iff there are at most three samples |
| Confidence.CoupledSpikeReachesHalf | services/behaviour-analysis/app/confidence.py:43-65 | Forty deviations explained by traffic score 0.50 on a mature baseline |
| Confidence.ScoreIsWorth | services/behaviour-analysis/app/confidence.py:43-65 | For all inputs the score is the worth of its signals rounded to thousandths: 0.08 per deviation of the larger resource score beyond 3 up to 5, 0.05 per deviation beyond traffic up to 6, 0.20 for full corroboration, 0.10 for 720 samples |
| Confidence.ScoreInRange | services/behaviour-analysis/app/confidence.py:52-65 | Where nothing saturates the score is linear in each signal, to within 0.0005 |
| Confidence.ApprovalIff | services/behaviour-analysis/app/confidence.py:68-78 | Uncorroborated, a score asks a human iff its signals are worth 0.5995 and reaches 0.80 iff they are worth 0.7995 |
| Confidence.CapIsAttained | services/behaviour-analysis/app/confidence.py:52-65 | Eight deviations, six beyond traffic, on 720 samples score exactly 0.80 |
| Confidence.Round3Near | services/behaviour-analysis/app/confidence.py:58-61 | Rounding moves a score by at most 0.0005 |
| Detector.Engine.ScoreAndLearn | services/behaviour-analysis/app/main.py:174-192 | Scores against the stored bucket first, then stores bucket and overall with the value learned |
| Detector.Engine.HandleTraffic | services/behaviour-analysis/app/main.py:200-207 | The whole new state: traffic baseline trained, latest traffic score of the service replaced |
| Detector.Engine.HandleCost | services/behaviour-analysis/app/main.py:276-334 | The whole new state and the finding, if any, of one cost message; a null cpu_cores changes nothing |
| DetectorRuns.DetectorRefinesLog | services/behaviour-analysis/app/main.py:90-113 | For every stream, each cost bucket is the batch of exactly its readings that did not qualify or whose run index is a multiple of 31; overall is the batch of all of them and its n the sum of the buckets'; the counters are the run length and the run length modulo 31 |
| DetectorRuns.StepOnCostProfile | services/behaviour-analysis/app/main.py:284-312 | A message changes a service's cost profile only if it is one of its readings |
| DetectorRuns.TrafficProfileIsBatch | services/behaviour-analysis/app/main.py:174-207 | For every stream, each stored traffic bucket and the overall are the batch of all its readings |
| DetectorRuns.CpuProfileIsBatch | services/behaviour-analysis/app/main.py:276-280 | For every stream, each stored CPU bucket and the overall are the batch of all its readings, a missing field counting as zero cores |
| DetectorRuns.TrafficScoreIsLast | services/behaviour-analysis/app/main.py:195-207 | A service's traffic score is known iff a traffic message of its own arrived, and is the last one's score against its bucket's earlier readings, zero until there are five |
| DetectorGuards.QualifiesIff | services/behaviour-analysis/app/main.py:116-139 | A reading qualifies iff its bucket is mature, its cost score is above 3 and traffic is known and below 1; traffic explains it iff at 3 or more |
| DetectorGuards.CpuCannotChangeVerdict | services/behaviour-analysis/app/main.py:136-139 | The CPU score never changes the verdict |
| DetectorGuards.FindingFacts | services/behaviour-analysis/app/main.py:314-341 | Whatever is published is not traffic-explained, has confidence between 0 and 0.80 and never earns autonomy |
| DetectorGuards.FindingEvidence | services/behaviour-analysis/app/main.py:289-333 | A finding's peak is above 3, its cost delta is the positive distance to the mean of exactly the readings that trained the bucket, its maturity counts those readings |
| DetectorGuards.ScoresFromHistory | services/behaviour-analysis/app/main.py:276-298 | Cost is scored against the readings that trained its bucket, CPU against all of the bucket's, traffic by the last traffic score |
| DetectorGuards.VerdictFromHistory | services/behaviour-analysis/app/main.py:116-139 | A reading qualifies iff five readings trained its bucket, it lies more than 3 deviations above them and the last traffic score is below 1; traffic explains it iff that is 3 or more |
| DetectorGuards.FindingFromHistory | services/behaviour-analysis/app/main.py:314-334 | A finding carries its cost, the larger resource score and a confidence within 0.0005 of what that score, the traffic score and the trained samples are worth; it asks a human iff they are worth 0.5995 |
| DetectorGuards.FlaggedIffThreeQualify | services/behaviour-analysis/app/main.py:300-314 | A reading is flagged iff it and the service's two previous readings qualified |
| DetectorGuards.BurstFreezesBaseline | services/behaviour-analysis/app/main.py:93-101 | During a burst of up to 30 qualifying readings the baseline does not move |
| DetectorGuards.BurstIsFlagged | services/behaviour-analysis/app/main.py:93-101 | After a non-qualifying reading, the third to thirty-first readings of a sustained burst are all flagged |
| DetectorGuards.RebaseliningTerminates | services/behaviour-analysis/app/main.py:108-113 | A workload settled at a constant cost stops qualifying after at most 31 * ceil(n / 9) readings, whatever traffic does and from any reachable counter |
| Ledger.Database.Insert | infra/sql/init.sql:79-97 | An accepted insert appends one row whose id is new; a refused one changes nothing |
| Ledger.Latest | services/api-bff/app/main.py:338-343 | A row of that anomaly and result with the greatest time, none iff there is none |
| Cluster.Live.ThrottleService | services/remediation-executor/app/k8s_actions.py:37-78 | The patched cluster and the reference, the no-op or the exception, as ThrottleCaps characterises them |
| Cluster.ThrottleCaps | services/remediation-executor/app/k8s_actions.py:41-73 | Executes iff the Deployment exists and its first container is not capped, raises iff it has no container, is a no-op otherwise; only that limit changes and the reference holds the old one |
| Cluster.Live.FreezeService | services/remediation-executor/app/k8s_actions.py:81-128 | The patched cluster and the reference, or the no-op, as FreezePins characterises them |
| Cluster.FreezePins | services/remediation-executor/app/k8s_actions.py:90-123 | Executes iff the workload's HPA reported a non-zero count other than its ceiling and is a no-op otherwise; only that ceiling changes, to the count |
| Cluster.SplitService | services/remediation-executor/app/k8s_actions.py:32-34 | A service id splits at its first slash; without one it is all namespace |
| Cluster.Live.Reverse | services/remediation-executor/app/k8s_actions.py:131-157 | The restored cluster, the unknown kind or the exception |
| Cluster.RollbackRestores | services/remediation-executor/app/k8s_actions.py:131-157 | A rollback restores iff what it names exists, and then that field alone; another kind is reported, a missing target raises |
| Undo.UndoRestoresLimits | services/remediation-executor/app/k8s_actions.py:37-157 | After any throttles and freezes over any services, with replica counts reported freely, rolling back newest first restores every limit and ceiling |
| Undo.PerformUndone | services/remediation-executor/app/k8s_actions.py:131-156 | One operation followed by its rollback leaves every limit as it was |
| Undo.LastRollbackWins | services/remediation-executor/app/k8s_actions.py:150-152 | In any order, a ceiling ends at its initial value iff the last reference applied recorded that value |
| Undo.OldestFirstLosesCeiling | services/remediation-executor/app/k8s_actions.py:150-152 | Two freezes rolled back oldest first leave the ceiling at 4 instead of 10 |
| Policy.FindMatchingPolicy | services/decision-policy/app/main.py:145-148 | The loop returns the first matching rule of the ordered query |
| Policy.LeastPriorityDecides | services/decision-policy/app/main.py:134-148 | The deciding rule matches, is the first listed that does and has the least priority number among matching rules; none iff none matches |
| Policy.RuleConditionsOnlyVeto | services/decision-policy/app/policy.py:23-46 | An empty rule matches anything, thresholds are inclusive, each of the four conditions vetoes and does nothing else |
| Policy.MatchesUnlessVetoed | services/decision-policy/app/policy.py:23-46 | A rule matches iff its prefix starts the service, both thresholds are reached and the classification is listed or the list is empty |
| Policy.ProtectedIff | services/decision-policy/app/policy.py:49-50 | A service is protected iff it starts with one of the prefixes |
| Policy.ProtectionIsByNamespace | services/decision-policy/app/policy.py:49-50 | A protected namespace protects every service in it; for slash-free prefixes the two coincide |
| Correlation.RecentDeploymentAgrees | services/decision-policy/app/main.py:71-88 | A deployment is recent iff the history holds one for the key within the window |
| Correlation.RecentSignalAgrees | services/decision-policy/app/main.py:91-107 | The corroborating rule is the latest signal's, present iff a signal lies within the window |
| Correlation.OneEventCorrelates | services/decision-policy/app/main.py:62-88 | Pods created or restarted and Deployments or HPAs scaled count, and nothing else, for the pod they name or else the namespace, within the window |
| Correlation.ClassifyAgrees | services/decision-policy/app/main.py:110-131 | The classification from the maps equals the one decided from the whole history |
| Correlation.OnlyPodsNamedAsWorkloadCount | services/decision-policy/app/main.py:71-80 | A workload's deployment is seen iff a pod with the workload's own name had an event in the window |
| Correlation.RolloutGoesUnnoticed | services/decision-policy/app/main.py:71-88 | A pod created a moment ago under a generated name leaves its workload classified as waste |
| Decision.Service.HandleLifecycle | services/decision-policy/app/main.py:71-80 | Records the time under the key of a deployment-like event and changes nothing else |
| Decision.Service.HandleSecuritySignal | services/decision-policy/app/main.py:91-93 | Records the time and rule under the service |
| Decision.Service.RecordAction | services/decision-policy/app/main.py:151-174 | Appends one decision row with no parent, or none if refused |
| Decision.Service.HandleAnomaly | services/decision-policy/app/main.py:177-261 | The reclassified anomaly, the decision row and the dispatched request, together the step DispatchedIff characterises |
| Decision.PolicyNeverWidens | services/decision-policy/app/main.py:227-250 | Autonomy never exceeds what confidence earns, is nil on protected targets, and traffic growth yields nothing |
| Decision.DispatchedIff | services/decision-policy/app/main.py:198-250 | Exactly when a decision acts alone and exactly when it asks |
| Decision.DecisionTable | services/decision-policy/app/main.py:198-250 | Exactly when a decision is silent, and exactly which result and mode it records otherwise: protected floor, then alert-only action, then confidence below 0.60, then pending or dispatched |
| Decision.MessageSays | services/decision-policy/app/main.py:177-185 | Which cost and confidence a decision reads from its message, zero and absent confidence falling through to the evidence |
| LedgerLaws.DecisionRecorded | services/decision-policy/app/main.py:151-261 | A decision step in full: the anomaly reclassified, one row iff the anomaly is stored, traffic does not explain it and the first rule that holds names an action, its every field, and a request iff dispatched |
| Executor.Service.RateLimitExceeded | services/remediation-executor/app/main.py:54-84 | Names the global ceiling iff at least that many executed or rolled-back rows lie in its window, else the service's own iff it is reached, else none |
| Executor.Service.Handle | services/remediation-executor/app/main.py:150-219 | The new cluster and ledger of one delivery, gated at one time and recorded at a later one |
| Executor.ActsIff | services/remediation-executor/app/main.py:169-210 | A delivery is acted on iff it passes every gate; a rollback is applied iff its target is reversible and inside its deadline |
| Executor.GateTable | services/remediation-executor/app/main.py:169-210 | Every gate decision: which refusal, with which reference, and when a delivery is acted on or reversed |
| Executor.OutcomeTable | services/remediation-executor/app/main.py:150-218 | Every field of every outcome row, and the result for each effect on the cluster |
| Executor.ExecutedRowIsReversible | services/remediation-executor/app/main.py:185-218 | The cluster changes only under an executed or rolled-back row, and an executed row's own prior state undoes it |
| Api.Service.AppendAction | services/api-bff/app/main.py:133-164 | Appends one row or, if refused, none |
| Api.Service.PublishOrFail | services/api-bff/app/main.py:167-187 | Either the request is published or a dispatch_failed child row is appended and the caller told |
| Api.Service.ApproveAction | services/api-bff/app/main.py:334-378 | The ledger, the bus and the reply of an approval, which CallOutcome characterises |
| Api.Service.RollbackAction | services/api-bff/app/main.py:382-421 | The ledger, the bus and the reply of a rollback request, which CallOutcome characterises |
| Api.RepliesTell | services/api-bff/app/main.py:167-187 | For any tables, 404 iff there is no ticket, 500 iff the database refuses the row, 503 iff only the broker is down, success otherwise |
| Protocol.LedgerOnlyGrows | infra/sql/init.sql:71-107 | Over any run the ledger and the requests only grow |
| LedgerLaws.StepWritesNow | infra/sql/init.sql:79-97 | Every row carries the time of the step that wrote it |
| LedgerLaws.LedgerInTimeOrder | infra/sql/init.sql:79-97 | In every run the ledger is in time order and nothing in it is later than now |
| LedgerLaws.ConstraintsHold | infra/sql/init.sql:79-97 | In every run each row refers to a stored anomaly and to earlier rows, under one of the three modes |
| LedgerSafety.AlwaysSound | services/remediation-executor/app/main.py:87-218 | The inductive invariant of ledger, executor job and gate times in every run |
| LedgerSafety.RollbackOnlyInsideWindow | services/remediation-executor/app/main.py:169-188 | Prior state, deadline and result executed coincide; the deadline is the row's time plus the window; each applied rollback reverses an executed row and was checked by its deadline |
| LedgerSafety.RollbackIsNotReversible | services/remediation-executor/app/main.py:170-174 | Asking to reverse anything but an executed row is answered without touching the cluster |
| LedgerSafety.ProtectedNeverChanges | services/remediation-executor/app/main.py:169-199 | For any queue contents and crashes, nothing in a namespace that starts with a protected prefix ever changes |
| BlastRadius.BlastRadiusBounded | services/remediation-executor/app/main.py:54-84 | Any closed interval as long as a window holds at most its ceiling of executed rows, globally and per service |
| BlastRadius.AlwaysInBudget | services/remediation-executor/app/main.py:195-218 | The inductive invariant: fewer than the ceiling had acted in the window ending at each executed row |
| PatchRate.PatchesBounded | services/remediation-executor/app/main.py:54-84 | In every run any closed interval as long as a window holds at most its ceiling of patches beyond those whose row was not stored, globally and per service |
| PatchRate.FedPatchesWithinCeilings | services/remediation-executor/app/main.py:195-218 | Fed by the services and with no death between patch and row, a window holds at most its ceiling of patches |
| PatchRate.UnknownActionsEscapeCeilings | services/remediation-executor/app/main.py:195-218 | Two requests with unknown action ids cap two Deployments at one moment under ceilings of 1, leaving no row |
| OriginalLimit.OriginalLimitNeverLost | services/remediation-executor/app/k8s_actions.py:47-72 | Every throttle reference holds the initial limit, never the cap, and restores the Deployment in any later state |
| LostLimits.FinishRecordsIff | services/remediation-executor/app/main.py:201-218 | After an applied throttle the ledger can restore the Deployment iff it could before, or the executor lived to insert a row the database accepts |
| LostLimits.LimitLostIff | services/remediation-executor/app/main.py:201-218 | In every run a Deployment differs from its start with no reference to restore it iff some delivery capped it, with none recorded before, and its row was not stored |
| LostLimits.LimitsStayRecoverable | services/remediation-executor/app/k8s_actions.py:47-72 | Fed by the services and with no death between patch and row, rollbacks allowed, each changed Deployment has an executed row holding its original limit |
| LostLimits.UnrecordedIsNotRetried | services/remediation-executor/app/k8s_actions.py:47-54 | After an unrecorded throttle the redelivered one is a no-op and records nothing |
| LostLimits.UnknownActionLosesLimit | services/remediation-executor/app/main.py:109-128 | A request naming an action id that was never committed caps the Deployment and its row is refused |
| OriginalCeiling.EarliestFreezeRestoresIff | services/remediation-executor/app/k8s_actions.py:94-128 | In every run the earliest freeze row of an HPA can be rolled back in any later state; it restores the initial ceiling iff the last freeze that went unrecorded before it, if any, left that ceiling |
| OriginalCeiling.CeilingLostIff | services/remediation-executor/app/k8s_actions.py:94-128 | With nothing on record, the ceiling differs from its start iff the last unrecorded freeze left another one |
| OriginalCeiling.CeilingsStayRecoverable | services/remediation-executor/app/k8s_actions.py:94-128 | Fed by the services and with no death between patch and row, each HPA whose ceiling changed has its initial ceiling in its first row |
| Scenarios.LostPinIsRecordedAsOriginal | services/remediation-executor/app/main.py:201-218 | In a service-fed run, a freeze from 10 to 4 lost with the executor, a report of 2 and a redelivery through the gate put 4 on record as the ceiling to restore |
| Scenarios.TurnedDownDispatchIsSilent | services/decision-policy/app/main.py:250-260 | A decision's dispatch that the broker turns down leaves neither request nor failure row |
| Scenarios.RollbackIsFreeForTheShop | services/remediation-executor/app/main.py:54-84 | A freeze and its rollback count twice globally and once for the service |
| LedgerUndo.LedgerUndoesRun | services/remediation-executor/app/main.py:201-218 | In every run fed by the services with no death between patch and row, rollbacks in any order included, the ledger's prior states applied newest first restore every limit and ceiling |
| LedgerUndo.RecordedRunIsUndone | services/remediation-executor/app/main.py:201-218 | The same in any run, injected requests and crashes included, in which each patch got its row |
| Undo.UndoAllAbsorbs | services/remediation-executor/app/k8s_actions.py:131-157 | Undoing a log is not disturbed by having applied one of its references beforehand |
| LedgerUndo.UndoAllRespectsLimits | services/remediation-executor/app/k8s_actions.py:131-157 | Undoing depends on limits and ceilings only, never on reported replica counts |
| Authority.AlwaysFed | services/decision-policy/app/main.py:243-260 | The inductive invariant of ancestry, requests and names in every run fed by the services |
| Guarantees.ExecutedIsAuthorised | services/remediation-executor/app/main.py:150-218 | Every executed row goes back to a decision for the same anomaly, service and action under a least-priority matching rule on an unprotected target: alone at 0.85 or more without requires_approval, or approved by a human at 0.60 or more |
| Guarantees.ExecutedObeysRule | services/decision-policy/app/policy.py:23-46 | The rule behind an executed row holds of it - prefix, cost, confidence and classification - and has the least priority number of those in the table that do |
| Guarantees.OutcomesSayWho | services/remediation-executor/app/main.py:155-167 | An outcome row carries its dispatch's mode and service, a rollback's neither; an executed row says approved iff its dispatch approved a pending row |
| Guarantees.RollbackAnswersRequest | services/api-bff/app/main.py:400-420 | An applied rollback answers a dispatch that named exactly the row it reversed, and carries no service |
| Guarantees.RolledBackSparesService | services/remediation-executor/app/main.py:54-84 | The service an applied rollback touched has a name, the rolled-back row does not carry it, and that service's count is unchanged by it |
| Guarantees.ChainsAreShort | infra/sql/init.sql:82-83 | References point strictly backwards and chains have at most five rows |
| Requests.RequestsFollowCommits | services/decision-policy/app/main.py:250-260 | In every run each request asks for what a dispatch row says, that row was committed at a moment before the request was published, and no dispatch is published twice |
| Requests.DispatchAnsweredIff | services/api-bff/app/main.py:167-187 | In every run a dispatch has its request or, from the API, its dispatch_failed row, never both - except iff its publish is still to come, its handler died, or it is decision-policy's own and was turned down |
| Requests.FateIsWhatHappened | services/api-bff/app/main.py:167-187 | A dispatch is recorded as sent, turned down or lost iff that step was taken while its request waited |
| Guarantees.CallOutcome | services/api-bff/app/main.py:344-378 | For an uninterrupted call, 404 iff there is nothing to act on, success is one row and one request, 503 is two rows and no request |
| Guarantees.DetectorNeverEarnsAutonomy | services/behaviour-analysis/app/main.py:314-320 | Every anomaly on the bus of a detector-fed run has confidence at most 0.80 and no traffic verdict |
| Guarantees.DetectorFedRunsAskAHuman | services/decision-policy/app/main.py:231-261 | In such runs every dispatch approves a pending row and every executed action has an approval as its parent |
| Guarantees.SupersededActionUnreachable | services/api-bff/app/main.py:389-398 | Once a newer action was executed for an anomaly, no later rollback call ever targets the older one |
| SystemHistory.DetectorInsideSystem | services/behaviour-analysis/app/main.py:276-312 | Inside the whole system the detector's state is its run over its own messages |
| SystemHistory.PublishedOnlyAfterDwell | services/behaviour-analysis/app/main.py:300-334 | In the running system a reading reaches the bus only as the third qualifying one, unclassified and at most at 0.80 |
| SystemHistory.ExecutedOnlyAfterDwell | services/behaviour-analysis/app/main.py:300-334 | Fed by the detector and the services, every executed row goes back to an anomaly of its service announced by at least the third qualifying reading in a row |
| SystemHistory.DecisionsUseWholeHistory | services/decision-policy/app/main.py:110-131 | The classification a decision uses is the one the whole run's history supports |
| Flagging.Service.HandleCost | services/behaviour-analysis/app/main.py:210-334 | The reading is stored first; a finding becomes one anomaly row and, if the broker takes it, one message |
| LedgerLaws.FindingIsStoredAndAnnounced | services/behaviour-analysis/app/main.py:210-262 | A finding is stored iff its id is new and announced iff the broker also takes it; row and message say what was found |
| Refinement.CostTakesStep | services/behaviour-analysis/app/main.py:276-334 | The mutable detector service takes the protocol's step, anomalies row and message included, whether or not the broker is up |
| Refinement.TrafficTakesStep | services/behaviour-analysis/app/main.py:200-207 | A traffic message takes the protocol's step |
| Refinement.LifecycleTakesStep | services/decision-policy/app/main.py:71-80 | A lifecycle event takes the protocol's step |
| Refinement.SignalTakesStep | services/decision-policy/app/main.py:91-93 | A security signal takes the protocol's step |
| Refinement.DecisionTakesSteps | services/decision-policy/app/main.py:177-261 | An uninterrupted decision is the protocol's commit and publish |
| Refinement.ApprovalTakesSteps | services/api-bff/app/main.py:334-378 | An uninterrupted approval is the protocol's commit, passing time, and publish or failure row |
| Refinement.RollbackCallTakesSteps | services/api-bff/app/main.py:382-421 | An uninterrupted rollback request is the protocol's commit, passing time, and publish or failure row |
| Refinement.ExecutorTakesSteps | services/remediation-executor/app/main.py:150-219 | One uninterrupted delivery is the protocol's gate, passing time, and finish |
| AlertStream.AlertQueue.PutNowait | services/api-bff/app/alert_stream.py:48-52 | Appends unless 100 alerts wait, and says which |
| AlertStream.Broadcaster.Subscribe | services/api-bff/app/alert_stream.py:34-38 | Adds a new empty queue |
| AlertStream.Broadcaster.Unsubscribe | services/api-bff/app/alert_stream.py:40-42 | Removes that queue only |
| AlertStream.Broadcaster.FanOut | services/api-bff/app/alert_stream.py:44-52 | Every subscriber is offered the alert once, in whatever order the set is visited |
| AlertStream.Broadcaster.OnMessage | services/api-bff/app/alert_stream.py:54-58 | Alerts before the start are dropped, later ones are scheduled on the event loop |
| AlertStream.Broadcaster.RunScheduled | services/api-bff/app/alert_stream.py:44-58 | The oldest scheduled alert is offered to whoever is subscribed by then |
| AlertStream.EveryClientSound | services/api-bff/app/alert_stream.py:34-58 | For every interleaving, at most 100 alerts wait and delivered followed by queued is an in-order subsequence of what was fanned out, all of it iff nothing found the queue full |
| AlertStream.DropsOnlyWhenFull | services/api-bff/app/alert_stream.py:44-52 | An alert is dropped iff 100 wait already; a client that left gets nothing |
| AlertStream.HubFollowsEvents | services/api-bff/app/alert_stream.py:34-58 | A client is there from its subscription on and live until it leaves; what arrived before the start is dropped, all else is kept |
| AlertStream.OfferedSinceJoining | services/api-bff/app/alert_stream.py:34-58 | Fanned out followed by scheduled is what arrived since the start; a client is offered exactly the fan-outs that run between its subscription and its leaving |
| AlertStream.ClientsAreIndependent | services/api-bff/app/alert_stream.py:44-52 | One client's contents are a function of its own events and the fan-outs |
| AlertStream.SubscribeTakesStep | services/api-bff/app/alert_stream.py:34-38 | Subscribing takes the hub's step: a new client with its own empty queue |
| AlertStream.UnsubscribeTakesStep | services/api-bff/app/alert_stream.py:40-42 | Unsubscribing takes the hub's step |
| AlertStream.OnMessageTakesStep | services/api-bff/app/alert_stream.py:54-58 | An arriving alert takes the hub's step |
| AlertStream.RunScheduledTakesStep | services/api-bff/app/alert_stream.py:44-58 | A fan-out on the event loop takes the hub's step for every client at once |
| AlertStream.GetTakesStep | services/api-bff/app/alert_stream.py:34-38 | Taking an alert takes the hub's step and returns what that step delivers |

## Left out

- The workload resolver's TTL cache and the collector cycle: they turn pod names into the service ids that messages carry; here every service id is arbitrary.
- Frontend, login, tokens, CORS and role checks: they decide who may call approve and roll back; here anyone may, at any time.
- RabbitMQ connections, retries and backoff: the bus is the sequence of published requests, delivered in any order and any number of times.
- SQLAlchemy, Postgres and the Kubernetes client: tables are sequences and maps, patches are updates by name. Clearing a limit means no limit.
- Non-404 API errors other than those the state itself causes: they are the `Abort` step, which changes nothing.
- Rolling restarts, RBAC, scheduling and real HPA behaviour: reported replica counts are arbitrary input, so freezing is not claimed to lower a ceiling.
- Floating-point rounding, NaN, date parsing and UUID syntax: reals, integers and positions.
- `rolling_mean`, `rolling_stddev`, `applied_state`, evidence text and log lines: derived or descriptive, read by nothing.
- quarantine and terminate: unimplemented in the repository; here they are refused as unsupported without touching the cluster.
- A service id without a workload name: looked up as the empty name and found missing, instead of an error of the client library.
- A row appended between what a decision or API handler reads and its own insert: the read and the insert are one step. The rows it read are never changed.
- Two rows of one anomaly with the same time: which one `ORDER BY ... LIMIT 1` returns is open; `Ledger.Latest` takes the later row.
- Pricing, Prometheus polling, load generator, manifests and scripts: they produce the readings and deploy the services; here readings are arbitrary input.
