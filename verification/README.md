# Incident pipeline of the Uyuni AI agent: a verified model

The agent polls minions, turns anomalies into incidents, queues an investigation
for each incident worth a notification, lets a pool of workers investigate and
deliver alerts to Alertmanager, and resolves alerts once their incident has been
healthy long enough. This project models the stateful parts of that pipeline in
Dafny and proves what they keep over every run.

## How the model is laid out

| part | files |
|---|---|
| Values shared by all parts: severities, anomalies, labels, payloads | `Domain.dfy` |
| Investigation queue: sorted sequence, binary heap, the class that keeps heap, dictionary and in-flight set | `QueueModel.dfy`, `HeapQ.dfy`, `InvestigationQueue.dfy` |
| Runs of the queue: worker pool, overtaking, streaming top-k | `WorkerPool.dfy`, `Urgency.dfy`, `Overtaking.dfy`, `TopK.dfy` |
| Incident store: the table as a map, the class that updates it in place | `StoreModel.dfy`, `IncidentStore.dfy` |
| Runs of the store: history, poll order, rate limit | `History.dfy`, `RowHistory.dfy`, `PollOrder.dfy`, `RateLimit.dfy` |
| The composed protocol: poll tasks, workers and Alertmanager, interleaved at every await | `Protocol.dfy`, `PollTask.dfy`, `Handler.dfy`, `Coherence.dfy`, `OrphanAlerts.dfy`, `SoundRuns.dfy`, `Necessity.dfy`, `Releases.dfy`, `LateRelease.dfy`, `Breaches.dfy`, `Progress.dfy`, `Retry.dfy`, `Interleaving.dfy`, `ProtocolRate.dfy`, `LateRate.dfy`, `LateRateReached.dfy` |
| Circuit breaker, its callers and the retry delays | `BreakerModel.dfy`, `DependencyManager.dfy`, `BreakerRuns.dfy`, `AdmissionBound.dfy`, `Backoff.dfy` |
| Dependency correlation and its hold-back window | `Correlation.dfy`, `CorrelationWindow.dfy`, `BoundedHold.dfy` |
| Evidence ledger and grounding gate | `EvidenceModel.dfy`, `EvidenceLedger.dfy`, `Grounding.dfy`, `Verdicts.dfy` |

Each object that the program updates in place is a class whose methods are proved
against a function of its old state; the theorems are about those functions and
about runs of them. A run is a sequence of atomic events, so a theorem about
every run is a theorem about every interleaving.

## What is proved about the whole

**Coherence, without hypotheses.** In every state of every run each pending or
running job refers to an active row of the generation it was queued for, no two
jobs refer to one row, a row is resolved only when its incident is neither
pending nor in flight, and an acknowledgement always reaches its own row.

**No orphan alerts, under three hypotheses.** Alertmanager holds at most one
alert an incident; it belongs to an active row and is the one the row stores, or
the one a worker is about to store; a resolved incident has none. The hypotheses,
stated event by event in `OrphanAlerts.Sound`, are:

1. reports are truthful where it matters: a firing request that took effect is
   reported as delivered unless its alert is the stored one, and a resolution reported
   as delivered took effect unless the alert was not there. A firing request that nobody
   waits for any more, because it was given up as failed, its worker was stopped or the
   process restarted, arrives only if its alert is there already or accounted for by its
   row and by whatever is queued, running or listed for the incident;
2. no worker is stopped, and the process is not restarted, before the acknowledgement
   of an alert that is there and is not the stored one. A cooldown's repetition of the
   stored alert may be interrupted anywhere;
3. when a job is released while its minion's poll task still has to cancel or
   enqueue the incident, what the task has read covers the alert that is there: a
   listed resolution names it, or a listed firing names it as the alert to replace
   or would deliver it once more. Repeated deliveries of the same labels, and
   releases of incidents without an alert, meet this.

None of them can be dropped. `Breaches.dfy` reaches, by sound runs from the initial
state, for each of these events a state in which it leaves an orphan once the agent's
own steps are done; `LateRelease.dfy` gives two more complete runs, sound but for one
release, that end with two alerts of one incident and with an alert behind a resolved
row. Beyond that, `Necessity.dfy` proves from every safe state exactly when a report, a
stopped worker, a restart or a late arrival leaves an orphan. `Releases.dfy` proves the
same of a release: from every safe state in which the incident is the poll task's next
act, a local resolution or a delivered one leaves an orphan exactly when what was read
does not cover the alert, and so does a firing that the queue admits, once an idle
worker has got to it. A firing that the queue rejects starts no job.

**Progress.** A reconcile that finds an incident absent long enough, while no worker
holds it, starts its resolution; once the poll task has worked off its list, with
the resolution delivered and no worker having taken the incident, the row is
inactive and the alert is gone, whatever else ran meanwhile.

**Rate limit.** In any run of the whole protocol in which no release falls between a
reconcile and the enqueueing of what it found due, or what it found is still due,
a window shorter than the cooldown holds at most three acknowledged firings of one
generation of an incident. Without that hypothesis, with releases at any moment, it
holds at most six, and six are possible (`LateRateReached.BoundIsReached`): the
hypothesis is needed.

**Nothing unacknowledged is lost.** From any state in which an incident is owed a
notification, after any run that does not acknowledge it, the next reconcile that
contains it reports it again. An acknowledged one is reported again by every reconcile
that contains it a cooldown or more after its last acknowledgement.

**Nothing recovered is announced.** Over every run a worker sends a request only while
its job's row is active, has the job's start and was contained in its minion's last
cycle. After a cycle without the incident, and until one contains it again, no request
about it is sent and no alert of it appears but one that was on its way already.

**Rows are their history.** Over every history of cycles, acknowledgements and
resolutions, each column of each row is a function of that history alone.

## Where the program does less than one may expect

* A cancelled half-open probe records nothing. The circuit then admits no call until
  an outcome is recorded (`BreakerRuns.NextAdmission` says exactly when), and every
  breaker can be brought there from the start (`BreakerRuns.WedgeIsReachable`). Nothing
  in `uyuni_ai_agent/` calls `record_external_success` or `record_external_failure`, so
  with no call left running no outcome ever comes (`BreakerRuns.CancelledProbeWedges`).
  For the same reason the admission bound counts cancellations.
* The documentation of the queue speaks of critical work that displaces other work;
  the code lets any strictly more urgent job displace the last one. The model
  follows the code.

Three results are stated more widely than this program needs. Severities have three
values here; the store also ranks any other text, below them all, and with such a
first severity the bound of three acknowledgements becomes four, and that of six
eight. The correlation window accepts any list of anomalies, and holds what is no
candidate exactly if it shares its identity with one; no detector emits such a pair, so
in this program only candidates are held (`BoundedHold.NonCandidatesPass`). The
grounding gate can be asked about any ledger, and an analysis that cites evidence not
yet collected may be confirmed by records to come, exactly if
`Grounding.Sustained` holds; the program grounds an analysis once, against a ledger
that no longer grows (`react_agent.py:831`, `react_agent.py:873`, `react_agent.py:957`).

## Model

| member | source | states |
|---|---|---|
| Domain.RanksMean | uyuni_ai_agent/investigation_queue.py:17-21 | the store's ranks and the queue's priorities both put critical before warning, warning before info and info before any other text |
| Domain.SameIdentity | uyuni_ai_agent/anomaly_detector.py:44-51 | two anomalies are one incident exactly if minion, metric, service and resource agree, a missing service or resource being an empty one |
| HeapQ.RootFirst | uyuni_ai_agent/investigation_queue.py:292 | no item of a heap precedes its root, so popping the root pops a least item |
| HeapQ.SwapWithParent | uyuni_ai_agent/investigation_queue.py:178 | exchanging an item with a parent it precedes moves the only defect of the heap one level up |
| HeapQ.SwapWithChild | uyuni_ai_agent/investigation_queue.py:177 | exchanging an item with its smaller child moves the only defect one level down |
| HeapQ.HeapPush | uyuni_ai_agent/investigation_queue.py:209 | the result is a heap with the old items and the new one |
| HeapQ.HeapPop | uyuni_ai_agent/investigation_queue.py:292 | the item returned was the root; the rest is a heap with the remaining items |
| HeapQ.Heapify | uyuni_ai_agent/investigation_queue.py:198 | any list becomes a heap of the same items |
| HeapQ.RemoveFirstEqual | uyuni_ai_agent/investigation_queue.py:65-70 | removes the first item with equal priority and sequence, ignoring the fingerprint as the item's equality does, and keeps the order of the rest |
| HeapQ.LastInOrder | uyuni_ai_agent/investigation_queue.py:188-191 | finds an item that no other item follows |
| QueueStorage.Discard | uyuni_ai_agent/investigation_queue.py:222-225 | because sequences are unique, removing by equality and rebuilding the heap removes exactly the item of that fingerprint from heap and dictionary |
| InvestigationQueueClass.InvestigationQueue.constructor | uyuni_ai_agent/investigation_queue.py:92-122 | the new queue represents the empty sequence |
| InvestigationQueueClass.InvestigationQueue.Enqueue | uyuni_ai_agent/investigation_queue.py:152-218 | heap, dictionary, in-flight set and counters refine `Enqueue` on the sorted sequence, for all five outcomes, result included |
| InvestigationQueueClass.InvestigationQueue.Cancel | uyuni_ai_agent/investigation_queue.py:220-232 | refines `Cancel` on the sorted sequence, with its three statuses |
| InvestigationQueueClass.InvestigationQueue.Next | uyuni_ai_agent/investigation_queue.py:285-296 | takes the first item of the sorted sequence and puts its fingerprint in flight; None exactly when nothing is pending |
| InvestigationQueueClass.InvestigationQueue.Count | uyuni_ai_agent/investigation_queue.py:307-311 | counts one completed or failed job and changes nothing else of the queue |
| InvestigationQueueClass.InvestigationQueue.Release | uyuni_ai_agent/investigation_queue.py:317-321 | takes one fingerprint out of flight and changes nothing else |
| InvestigationQueueClass.InvestigationQueue.Close | uyuni_ai_agent/investigation_queue.py:249-252 | stops acceptance and leaves pending and running work alone |
| QueueModel.InsertSorted | uyuni_ai_agent/investigation_queue.py:209 | insertion keeps the strict order by (priority, sequence) |
| QueueModel.UniqueItem | uyuni_ai_agent/investigation_queue.py:107 | in a valid queue a fingerprint has at most one item |
| QueueModel.EnqueueValid | uyuni_ai_agent/investigation_queue.py:152-218 | enqueueing keeps order, distinctness, the bound and the separation of pending and in-flight |
| QueueModel.CancelValid | uyuni_ai_agent/investigation_queue.py:220-232 | cancelling keeps them, and removes exactly the incident's item |
| QueueModel.PopValid | uyuni_ai_agent/investigation_queue.py:285-296 | popping keeps them |
| QueueModel.EnqueueItems | uyuni_ai_agent/investigation_queue.py:168-212 | what is pending afterwards: old items, but for an evicted or refreshed one, and the offered work |
| QueueModel.EnqueuedIsPending | uyuni_ai_agent/investigation_queue.py:204-212 | a job reported as enqueued is among the pending ones, with its payload |
| QueueModel.EnqueueCounts | uyuni_ai_agent/investigation_queue.py:160-218 | an enqueue changes the number pending as the enqueued and evicted counters say |
| Urgency.EnqueueDecides | uyuni_ai_agent/investigation_queue.py:158-218 | which of the five answers an enqueue gets, what it reports, and the one counter it moves |
| Urgency.CancelDecides | uyuni_ai_agent/investigation_queue.py:220-232 | which of the three answers a cancellation gets; only one of a pending job changes and counts anything |
| Urgency.CoalescedIsRefreshed | uyuni_ai_agent/investigation_queue.py:168-184 | a pending incident reported again keeps its place in time, takes the new work and the more urgent priority |
| Urgency.MostSevereIsTaken | uyuni_ai_agent/investigation_queue.py:285-296 | over every run no job is taken while one is pending whose incident was reported more severe, or as severe and admitted earlier |
| Urgency.DisplacesExactlyLessSevere | uyuni_ai_agent/investigation_queue.py:186-202 | over every run a new incident at a full queue displaces the least urgent job exactly if it is strictly more severe than that job's incident was reported, and is rejected otherwise |
| WorkerPool.StepKeepsValid | uyuni_ai_agent/investigation_queue.py:152-321 | every step of queue or worker keeps the queue valid and the in-flight set equal to what the workers hold, one worker an incident |
| WorkerPool.StepConserves | uyuni_ai_agent/investigation_queue.py:299-321 | every step keeps enqueued = pending + evicted + cancelled + completed + failed + running + lost to cancellation |
| WorkerPool.InFlightBounded | uyuni_ai_agent/investigation_queue.py:144-150 | never more in flight than workers |
| WorkerPool.EveryRunIsExclusiveAndConserving | uyuni_ai_agent/investigation_queue.py:138-321 | over every run of any number of workers: exclusion, the in-flight bound and conservation of jobs |
| WorkerPool.OutcomesAreCounted | uyuni_ai_agent/investigation_queue.py:303-316 | over every run the completed and failed counters are the numbers of jobs that ended so, and interrupted jobs count as neither |
| WorkerPool.CancelledWorkerLeaves | uyuni_ai_agent/investigation_queue.py:308-309 | over every run a cancelled worker takes no further job |
| WorkerPool.ShutIsFinal | uyuni_ai_agent/investigation_queue.py:158-162 | over every run after a shutdown every offer is rejected as closed and what is pending only shrinks |
| WorkerPool.StaysUntilShutdown | uyuni_ai_agent/investigation_queue.py:285-321 | over every run no worker leaves before a shutdown unless it is cancelled |
| Overtaking.WaitingJobStaysCritical | uyuni_ai_agent/investigation_queue.py:168-212 | while a critical job waits it stays pending as critical, and each pop uses up one job admitted earlier |
| Overtaking.CriticalJobIsTakenInTime | uyuni_ai_agent/investigation_queue.py:168-212 | a critical job that is not cancelled is never evicted and is taken after at most `max_pending - 1` others |
| TopK.RankingIsSortedPermutation | uyuni_ai_agent/investigation_queue.py:186-212 | the ranking is every offer once, in (priority, arrival) order |
| TopK.PendingIsTopK | uyuni_ai_agent/investigation_queue.py:186-212 | after any stream of offers of distinct incidents the queue holds, in order, the first `max_pending` of the ranking |
| TopK.PendingIffRankedHigh | uyuni_ai_agent/investigation_queue.py:186-212 | an offer is pending exactly when its place in the ranking is below `max_pending` |
| TopK.KeptPrecedeDropped | uyuni_ai_agent/investigation_queue.py:186-202 | every kept offer is more severe than every dropped one, or as severe and earlier, and something is dropped only from a full queue |
| StoreModel.Configure | uyuni_ai_agent/incident_store.py:91-94 | legal settings are kept; a negative cooldown becomes zero and a smaller number of healthy cycles one |
| StoreModel.SelectionIsFirstMostSevere | uyuni_ai_agent/incident_store.py:167-183 | of the anomalies with one fingerprint the earliest among the most severe is chosen |
| StoreModel.SelectionKeepsFirstOccurrence | uyuni_ai_agent/incident_store.py:169-183 | the chosen anomalies come in the order in which their fingerprints first occurred |
| StoreModel.SelectionWellFormed | uyuni_ai_agent/incident_store.py:167-183 | each fingerprint once, exactly the fingerprints that occur, each with an anomaly of its own |
| StoreModel.ReconcileIsLocal | uyuni_ai_agent/incident_store.py:205-286 | two tables that agree at an incident still agree there after cycles that chose the same anomaly for it, whatever else they hold |
| StoreModel.ReconcileGenerations | uyuni_ai_agent/incident_store.py:205-286 | a new, unacknowledged generation starts exactly for contained incidents that were not active; all others keep generation, acknowledgement and payload, with the absence cleared, counted or left |
| StoreModel.FiringIsActionable | uyuni_ai_agent/incident_store.py:205-274 | every incident reported as firing is actionable in the table the cycle leaves, with that table's payload and severity |
| StoreModel.FiringListContents | uyuni_ai_agent/incident_store.py:205-274 | what is reported as firing: the chosen anomalies that are new, escalated or past their cooldown, each with its row's generation and payload |
| StoreModel.FiringListDistinct | uyuni_ai_agent/incident_store.py:205-274 | no incident is reported as firing twice by one reconcile |
| StoreModel.FiringListInOrder | uyuni_ai_agent/incident_store.py:240-274 | firings are listed in the order in which their incidents first occurred |
| StoreModel.FiresExactlyWhen | uyuni_ai_agent/incident_store.py:205-274 | on the columns: a contained incident fires exactly if it was not active, was never emitted, was emitted less severely, or was emitted `cooldownSeconds` or more ago; the firing carries the start and payload of its generation |
| StoreModel.RecordDescribesRow | uyuni_ai_agent/incident_store.py:276-290 | a resolved record shows, field by field, the row that the cycle leaves, absent for long enough |
| StoreModel.MinionColumnStays | uyuni_ai_agent/incident_store.py:205-240 | no cycle changes the minion of a row |
| IncidentStoreClass.SelectMostSevere | uyuni_ai_agent/incident_store.py:167-183 | the loop over the anomalies computes that selection |
| IncidentStoreClass.IncidentStore.constructor | uyuni_ai_agent/incident_store.py:83-135 | the table as it is found, with clipped settings |
| IncidentStoreClass.IncidentStore.Reconcile | uyuni_ai_agent/incident_store.py:185-290 | row by row in place, the table, the firing list and the resolved records become those of the specification |
| IncidentStoreClass.IncidentStore.MarkEmitted | uyuni_ai_agent/incident_store.py:292-326 | only an active row of the given generation changes, in its three notification columns |
| IncidentStoreClass.IncidentStore.IsActionable | uyuni_ai_agent/incident_store.py:328-339 | true exactly for an active row of that generation that is not absent |
| IncidentStoreClass.IncidentStore.MarkResolved | uyuni_ai_agent/incident_store.py:341-353 | only an active row changes, and it becomes resolved |
| History.AbsentAgreesWithHistory | uyuni_ai_agent/incident_store.py:258-286 | over every history an active row's absence count is the number of its minion's cycles since the last one that contained it |
| History.ReportedIffAbsentLongEnough | uyuni_ai_agent/incident_store.py:276-288 | a cycle reports a resolution exactly when the incident is active and has been absent for the required number of cycles in a row |
| History.ReportedAgain | uyuni_ai_agent/incident_store.py:276-288 | once reported, it is reported by every later cycle until it is resolved or reappears |
| RowHistory.RowIsItsHistory | uyuni_ai_agent/incident_store.py:185-353 | over every history: which rows exist and which are active, and for each row when its generation began, when and how severe it was last seen, what was acknowledged last in that generation and as what, and when it was resolved |
| PollOrder.InOrderAt | uyuni_ai_agent/incident_store.py:198-288 | after reconciling any list of distinct minions, a minion's rows are those its own reconcile alone gives |
| PollOrder.OrderDoesNotMatter | uyuni_ai_agent/main.py:718-732 | any two orders of the reconcile calls of one poll give the same table and the same reports to each minion |
| Interleaving.ForeignKeepsRows | uyuni_ai_agent/main.py:503-600 | no event of another minion's poll task, and no worker's event but an acknowledgement of its own incidents, changes a minion's rows |
| Interleaving.TasksDoNotInterfere | uyuni_ai_agent/main.py:718-732 | after any run of such events, cancellations, resolutions and enqueues of other tasks included, a minion's reconcile leaves the same rows of the minion and reports the same |
| Interleaving.StepKeepsListedActionable | uyuni_ai_agent/main.py:278-600 | every event keeps every listed firing actionable |
| Interleaving.ListedStaysActionable | uyuni_ai_agent/main.py:590-600 | over every run, what a poll task has listed as firing is still actionable when its turn comes to be queued |
| RateLimit.ConsecutiveAcksAreSpaced | uyuni_ai_agent/incident_store.py:249-274 | two consecutive acknowledgements of an incident are a cooldown apart, or the later one is strictly more severe |
| RateLimit.AtMostThreeAcksInAWindow | uyuni_ai_agent/incident_store.py:249-326 | a window shorter than the cooldown holds at most three acknowledged firings, four if the first severity is unknown |
| RateLimit.BoundIsReached | uyuni_ai_agent/incident_store.py:249-326 | at any three moments, or four after an unknown severity, an incident that climbs through the severities is acknowledged each time |
| ProtocolRate.StepDue | uyuni_ai_agent/main.py:278-600 | every prompt event keeps whatever is queued, running or listed due: never acknowledged, escalated or past its cooldown |
| ProtocolRate.AcksAreSpaced | uyuni_ai_agent/main.py:429-434 | over a run within one generation, consecutive acknowledgements are a cooldown apart or strictly more severe |
| ProtocolRate.AtMostThreeAcksInARun | uyuni_ai_agent/main.py:278-600 | over every prompt run of the composed protocol, a window shorter than the cooldown holds at most three acknowledged firings of one generation, four after an unknown severity |
| LateRate.StepFair | uyuni_ai_agent/main.py:278-600 | every event, releases included, keeps each job due against the row or against the row before its last acknowledgement, and each listed firing due against the row while a job of its incident is left |
| LateRate.AcksAreLooselySpaced | uyuni_ai_agent/main.py:429-434 | over any run within one generation each acknowledgement is a cooldown later or strictly more severe than one of the two before it |
| LateRate.AtMostSixAcksInAnyRun | uyuni_ai_agent/main.py:278-600 | over every run of the composed protocol, with jobs released at any moment, a window shorter than the cooldown holds at most six acknowledged firings of one generation, eight if one of the first two has an unknown severity |
| LateRateReached.ClimbIsAcknowledged | uyuni_ai_agent/main.py:503-600 | for every list of severities in which each exceeds the one two before it there is a run from the start that acknowledges them all at one moment |
| LateRateReached.BoundIsReached | uyuni_ai_agent/main.py:503-600 | six acknowledgements at one moment are possible, and eight from an unknown severity on |
| Coherence.BeginCoherent | uyuni_ai_agent/main.py:516-525 | what a reconcile lists refers to active rows of its own minion |
| Coherence.CancelOneCoherent | uyuni_ai_agent/main.py:527-545 | cancelling or locally resolving one incident keeps every other job and list attached to its row |
| Coherence.StepCoherent | uyuni_ai_agent/main.py:278-600 | every event of poll task, worker, Alertmanager or restart keeps coherence |
| Coherence.JobsReferToTheirGeneration | uyuni_ai_agent/main.py:590-600 | over every run: jobs refer to active rows of their generation, one job a row |
| Coherence.ResolvedOnlyWhenAbsent | uyuni_ai_agent/main.py:527-573 | in every coherent state, an event resolves a row only if its incident is neither pending nor in flight |
| Coherence.AcknowledgementReachesItsRow | uyuni_ai_agent/main.py:418-435 | the guard on `starts_at` never drops an acknowledgement, and no other row changes |
| PollTask.ReconcileDecides | uyuni_ai_agent/main.py:516-525 | a reconcile starts a task with exactly the firings and resolutions that the table reports about the minion's own anomalies |
| PollTask.CancelDecides | uyuni_ai_agent/main.py:527-557 | a resolved incident is left alone while in flight; otherwise its pending job goes, and it is resolved at once if nothing was delivered for it or its stored labels are sent as resolved |
| PollTask.ConclusionDecides | uyuni_ai_agent/main.py:572-573 | a row is resolved exactly if its resolution was reported as delivered, and no other row changes |
| PollTask.QueueingDecides | uyuni_ai_agent/main.py:590-600 | firings are queued in order once all resolutions are through, with their severity and the moment |
| PollTask.RequestsTakeEffect | uyuni_ai_agent/main.py:376-428 | what a served request does to the alerts, whatever is reported of it |
| PollTask.LateRequests | uyuni_ai_agent/main.py:83-115 | only a firing request that was given up or whose worker stopped may still arrive |
| PollTask.RestartForgets | uyuni_ai_agent/investigation_queue.py:92-122 | a restart keeps the table and the alerts and forgets tasks, queue and workers |
| Handler.StartDecides | uyuni_ai_agent/main.py:291-312 | a job is taken up exactly if it is not older than the limit and its row is active, has its start and is not absent; otherwise it completes and changes nothing |
| Handler.AnalysedDecides | uyuni_ai_agent/main.py:343-380 | an analysis is used exactly if there is one and the incident is still present; the old labels are resolved first exactly if a payload with other labels was stored |
| Handler.TransitionedDecides | uyuni_ai_agent/main.py:387-406 | the new alert is sent exactly if the old labels were resolved and the incident is still present |
| Handler.DeliveredEnds | uyuni_ai_agent/main.py:418-437 | an answered delivery ends the job, and is written to the row of the job, and to no other, exactly if it succeeded |
| Handler.StopEnds | uyuni_ai_agent/main.py:477-494 | an exceeded deadline completes a job, an exception fails it and a cancellation does neither |
| Handler.SendsOnlyWhilePresent | uyuni_ai_agent/main.py:343-406 | over every run a worker sends a request only while its job's row is active, has the job's start and is not absent |
| Handler.RecoveredStaysSilent | uyuni_ai_agent/main.py:348-356 | over every run in which no cycle contains a gone incident, no request about it is sent and no alert of it appears that was not on its way |
| Handler.RecoveredWhileInvestigating | uyuni_ai_agent/main.py:348-356 | in particular a worker that is investigating when a cycle does not contain its incident sends nothing until one does |
| OrphanAlerts.StepSafe | uyuni_ai_agent/main.py:278-600 | every sound event keeps the safety invariant, untruthful reports, stops and restarts about a stored or absent alert included |
| OrphanAlerts.MarkSafe | uyuni_ai_agent/main.py:429-434 | the acknowledgement makes the delivered labels the stored ones |
| OrphanAlerts.DeliveredAlertSafe | uyuni_ai_agent/main.py:418-436 | an alert that was delivered and reported, or that is the stored one whatever was reported, keeps the safety invariant |
| OrphanAlerts.ArriveSafe | uyuni_ai_agent/main.py:83-115 | a request that arrives when nobody waits for it keeps the safety invariant if its alert is there already or accounted for |
| OrphanAlerts.ServeTransitionSafe | uyuni_ai_agent/main.py:369-406 | resolving the previous label set first leaves no alert behind |
| OrphanAlerts.NoOrphanAlerts | uyuni_ai_agent/main.py:369-436 | over every sound run: each alert belongs to an active row and is its stored or about-to-be-stored one, and no incident has two; the hypotheses concern only what Alertmanager holds at the event |
| OrphanAlerts.ResolvedMeansSilent | uyuni_ai_agent/main.py:540-573 | over every sound run a resolved incident has no alert |
| Necessity.UnreportedDelivery | uyuni_ai_agent/main.py:418-436 | after a firing request and its reply there is no orphan exactly if the report was truthful or the alert was the stored one |
| Necessity.StoppedBeforeMarking | uyuni_ai_agent/main.py:429-434 | a worker stopped between delivery and acknowledgement leaves an orphan exactly if the alert is there and is not the stored one |
| Necessity.StoppedWhileDelivering | uyuni_ai_agent/main.py:418-428 | the same for a request that arrives after its worker was stopped |
| Necessity.LostDelivery | uyuni_ai_agent/main.py:83-115 | a firing request given up as failed that arrives once the failure is counted leaves an orphan exactly if its alert is not the stored one |
| Necessity.RestartOrphans | uyuni_ai_agent/main.py:429-434 | a restart leaves an orphan exactly if some answered and unacknowledged delivery left an alert that is not the stored one |
| Necessity.RestartWhileDelivering | uyuni_ai_agent/main.py:418-428 | the same with a request that was out at the restart and arrives afterwards |
| Necessity.UneffectiveTransition | uyuni_ai_agent/main.py:376-400 | a label transition that did nothing but reported success leads to two alerts exactly if the old alert was there |
| Necessity.UneffectiveResolution | uyuni_ai_agent/main.py:559-573 | a resolution and its reply leave no orphan exactly if the report was truthful or there was no alert |
| Releases.ReleaseBeforeLocalResolution | uyuni_ai_agent/main.py:527-545 | from every safe state: after a release, resolving locally a record without payload leaves an orphan exactly if the incident has an alert |
| Releases.ReleaseBeforeResolution | uyuni_ai_agent/main.py:547-573 | after a release, delivering the resolution of a record leaves an orphan exactly if there is an alert other than the one it names |
| Releases.JobOrphans | uyuni_ai_agent/main.py:293-434 | from every coherent state without orphans, a job that runs through leaves an orphan exactly if there was an alert that it neither resolves nor repeats |
| Releases.WaitingJobOrphans | uyuni_ai_agent/main.py:293-434 | from every coherent state without orphans an idle worker can get to any waiting job, and then leaves an orphan exactly if there was an alert that the job neither resolves nor repeats |
| Releases.ReleaseBeforeEnqueue | uyuni_ai_agent/main.py:590-600 | after a release, if the queue admits what was read, any idle worker can get to the job whatever else is queued, and then leaves an orphan exactly if there is an alert that the firing neither replaces nor repeats |
| LateRelease.LateReleaseOrphans | uyuni_ai_agent/main.py:525-600 | a run from the start, sound but for one release between reconcile and enqueue, that ends with two alerts of one incident |
| LateRelease.LateReleaseAbandons | uyuni_ai_agent/main.py:525-545 | a run from the start, sound but for one release between reconcile and cancel, that leaves an alert behind a resolved row |
| Breaches.UnreportedDeliveryOrphans | uyuni_ai_agent/main.py:83-115 | a sound run from the start, after which a firing request that takes effect and is reported as failed leaves an orphan |
| Breaches.LostDeliveryOrphans | uyuni_ai_agent/main.py:83-115 | one after which a request given up as failed arrives unaccounted for and leaves an orphan |
| Breaches.StopOrphans | uyuni_ai_agent/main.py:429-434 | one after which stopping the worker, in any of the three ways, leaves an orphan |
| Breaches.RestartOrphansAlert | uyuni_ai_agent/main.py:429-434 | one after which a restart leaves an orphan |
| Breaches.UneffectiveTransitionOrphans | uyuni_ai_agent/main.py:369-400 | one after which a label transition that did nothing and is reported as done lets the delivery make a second alert |
| Breaches.UneffectiveResolutionOrphans | uyuni_ai_agent/main.py:559-573 | one after which a resolution that did nothing and is reported as done leaves an alert behind a resolved row |
| Breaches.LateReleaseMisses | uyuni_ai_agent/main.py:547-573 | one after which a release before the delivered resolution of an outdated payload leaves the present alert behind a resolved row |
| Progress.StepGoesOn | uyuni_ai_agent/main.py:525-573 | every event that does not take the incident up, fail its resolution or cut its poll task off keeps the resolution listed, under way or done |
| Progress.RecoveredIsResolved | uyuni_ai_agent/main.py:525-573 | from every safe state, an incident absent long enough and not in flight is inactive and has no alert once its poll task has worked off its list |
| Retry.UnacknowledgedEventKeepsNotification | uyuni_ai_agent/main.py:293-437 | no event but an acknowledged delivery changes an active row's notification columns |
| Retry.NothingUnacknowledgedIsLost | uyuni_ai_agent/main.py:293-437 | after any run without an acknowledgement, an owed incident is reported by every reconcile that contains it |
| Retry.RepeatedAfterCooldown | uyuni_ai_agent/incident_store.py:254-266 | after any run without a further acknowledgement, every reconcile a cooldown or more after the last one that contains the incident reports it |
| CircuitBreakerClass.CircuitBreaker.constructor | uyuni_ai_agent/resilience.py:56-73 | a closed circuit without failures |
| CircuitBreakerClass.CircuitBreaker.Acquire | uyuni_ai_agent/resilience.py:91-103 | the new state and the snapshot returned; the snapshot is not open exactly if the call is admitted |
| CircuitBreakerClass.CircuitBreaker.TakeSnapshot | uyuni_ai_agent/resilience.py:75-89 | an open circuit past its timeout turns half-open when looked at; the wait reported is what is left of the timeout |
| CircuitBreakerClass.CircuitBreaker.RecordSuccess | uyuni_ai_agent/resilience.py:105-109 | back to a new breaker |
| CircuitBreakerClass.CircuitBreaker.RecordFailure | uyuni_ai_agent/resilience.py:111-119 | one more failure; opens at the threshold or from half-open |
| DependencyManagerClass.DependencyManager.constructor | uyuni_ai_agent/resilience.py:171-189 | every named dependency has a breaker of its own |
| DependencyManagerClass.DependencyManager.Begin | uyuni_ai_agent/resilience.py:202-208 | an operation starts exactly when its own breaker admits it, is told the remaining wait otherwise, and touches no other breaker |
| DependencyManagerClass.DependencyManager.Finish | uyuni_ai_agent/resilience.py:210-257 | on the breaker's fields: a deadline, an exception and a result that is not accepted each count one failure and open the circuit at the threshold or from half-open; an accepted result resets it; a cancellation changes nothing; the snapshot observed is that of the new state |
| Executions.ExecutionMeans | uyuni_ai_agent/resilience.py:194-257 | what one execution does to a closed circuit and to one that is not, for each way it can end |
| Executions.ClosedExactlyWhileFewFail | uyuni_ai_agent/resilience.py:194-257 | while no result is accepted a circuit stays closed exactly as long as fewer than `threshold` executions have failed, cancelled ones not counted |
| Executions.FailuresOpenTheCircuit | uyuni_ai_agent/resilience.py:194-257 | `threshold` executions in a row that were not cancelled and returned no accepted result leave the circuit not closed, from any state |
| BreakerRuns.StateFollowsFailures | uyuni_ai_agent/resilience.py:105-129 | over every interleaving the circuit is closed exactly while fewer than `threshold` failures were recorded since the last success, and otherwise `opened_at` is the last of them |
| BreakerRuns.RetryAfterIsExact | uyuni_ai_agent/resilience.py:75-89 | the wait that an open circuit reports is exact: a call is admitted once it has passed, and none before |
| BreakerRuns.AcquisitionTells | uyuni_ai_agent/resilience.py:91-103 | what a caller is told: the failures so far, whether it is let in, and the wait if it is not |
| BreakerRuns.OneProbeAnEpoch | uyuni_ai_agent/resilience.py:91-129 | between two recorded outcomes an opened circuit admits at most one call, and none before the timeout after the last failure |
| BreakerRuns.NextAdmission | uyuni_ai_agent/resilience.py:91-129 | after a probe, the next call is admitted exactly if a success was recorded with fewer than `threshold` failures after it, or the last failure is a recovery timeout ago; never if nothing was recorded |
| BreakerRuns.WedgeIsReachable | uyuni_ai_agent/resilience.py:194-220 | every breaker gets there from the start: fail up to the threshold, wait, let one probe through, cancel it |
| BreakerRuns.CancelledProbeWedges | uyuni_ai_agent/resilience.py:219-220 | with no call left running and nothing reported from outside, no later call is ever admitted |
| AdmissionBound.Fits | uyuni_ai_agent/resilience.py:121-129 | the whole recovery timeouts in a stretch of time: the floor of their quotient |
| AdmissionBound.StepPays | uyuni_ai_agent/resilience.py:91-129 | an admitted call uses up one of the remaining budget; only a cancellation adds to it |
| AdmissionBound.AdmissionIsBounded | uyuni_ai_agent/resilience.py:91-129 | while nothing succeeds and at most c calls run at once, a stretch of length T admits at most threshold - 1 + c + floor(T / timeout) calls, plus one for each cancelled call |
| AdmissionBound.BoundIsAttained | uyuni_ai_agent/resilience.py:91-129 | for every limit, stretch and number of cancellations a new breaker has a run that admits exactly that many calls |
| Backoff.BaseFormula | uyuni_ai_agent/resilience.py:154-159 | the base delay is the capped initial delay times a power of two |
| Backoff.BaseDoubles | uyuni_ai_agent/resilience.py:154-159 | it starts at the initial delay and doubles with each failure up to the maximum |
| Backoff.BaseIsMonotone | uyuni_ai_agent/resilience.py:154-159 | it never decreases |
| Backoff.ReachesAndKeepsMaximum | uyuni_ai_agent/resilience.py:154-159 | it reaches the maximum after at most maximum / initial failures and stays there |
| Backoff.DelayWithinWindow | uyuni_ai_agent/resilience.py:160-162 | every draw gives a delay within the jitter window and the cap, never negative; both ends are reached |
| Backoff.DelayIsLinear | uyuni_ai_agent/resilience.py:160-162 | between its ends the delay is in proportion to the draw, up to the cap |
| Backoff.TotalWaitAtLeast | uyuni_ai_agent/resilience.py:154-162 | n failures wait at least (1 - jitter) times the sum of their bases, whatever the draws |
| Correlation.SelectPair | uyuni_ai_agent/anomaly_detector.py:298-320 | the nested search finds the lexicographically first eligible pair, and nothing only if none is eligible |
| Correlation.CorrelateDependencyAnomalies | uyuni_ai_agent/anomaly_detector.py:283-382 | search and rebuilding loop compute the correlated list |
| Correlation.EligibleMeans | uyuni_ai_agent/anomaly_detector.py:245-266 | on the fields: which pair of anomalies may be correlated |
| Correlation.CorrelationConserves | uyuni_ai_agent/anomaly_detector.py:283-382 | the input is returned exactly if no pair is eligible; otherwise the first pair becomes one chain at the smaller index and all others stay in order, as elements and as a multiset; on its fields the chain belongs to the Apache host, shows the database's value and threshold, and is critical exactly if a symptom is |
| Correlation.CorrelationKeepsMinionsAndCriticals | uyuni_ai_agent/anomaly_detector.py:325-382 | the output names only minions of the input, and holds a critical anomaly exactly if the input does |
| Correlation.ChainIsFinal | uyuni_ai_agent/anomaly_detector.py:245-266 | a chain is a candidate for nothing |
| CorrelationWindowClass.DependencyCorrelationWindow.constructor | uyuni_ai_agent/anomaly_detector.py:400-411 | settings clipped at zero, nothing remembered |
| CorrelationWindowClass.DependencyCorrelationWindow.IsCrossMinionCandidate | uyuni_ai_agent/anomaly_detector.py:413-434 | true exactly if some complete declared edge has the anomaly as a candidate on its side |
| CorrelationWindowClass.DependencyCorrelationWindow.HoldBack | uyuni_ai_agent/anomaly_detector.py:459-476 | the loop releases what is not held, in order, remembers each waiting key once and counts the rest |
| CorrelationWindowClass.DependencyCorrelationWindow.Correlate | uyuni_ai_agent/anomaly_detector.py:436-476 | result, memory and held count are those of the specification, with and without a chain |
| WindowModel.NoChainNoChange | uyuni_ai_agent/anomaly_detector.py:441-452 | without a chain in the correlated list, correlation changed nothing |
| WindowModel.CandidateMeans | uyuni_ai_agent/anomaly_detector.py:413-434 | on the fields: which anomalies wait for a counterpart |
| WindowModel.ChainSeenExactlyWhen | uyuni_ai_agent/anomaly_detector.py:441-452 | a cycle shows a chain exactly if some pair is eligible or a chain came in |
| WindowModel.ChainReleasesAll | uyuni_ai_agent/anomaly_detector.py:446-452 | with a chain in sight the correlated list is passed on and nothing is held or remembered |
| WindowModel.ReleasedInOrder | uyuni_ai_agent/anomaly_detector.py:462-476 | without one what is not held is passed on in its order, position by position, and the held count is that of the rest |
| BoundedHold.HeldExactlyDuringGrace | uyuni_ai_agent/anomaly_detector.py:436-476 | over every run a cycle holds an anomaly exactly if its key has waited in every cycle since some cycle s and less than the grace period lies between the two |
| BoundedHold.NothingStale | uyuni_ai_agent/anomaly_detector.py:454-460 | only keys of the latest cycle's candidates are remembered |
| BoundedHold.ReleasedStaysReleased | uyuni_ai_agent/anomaly_detector.py:465-474 | with a clock that does not run backwards, an anomaly once released stays released while its key waits |
| BoundedHold.CycleKeepsTheRest | uyuni_ai_agent/anomaly_detector.py:462-476 | whatever a cycle without a chain does not hold it passes on, as often as it came in |
| BoundedHold.NonCandidateHeldExactlyWhen | uyuni_ai_agent/anomaly_detector.py:454-474 | an anomaly that is no candidate is held exactly if another one of the same identity is a candidate, no chain was seen and the key is young |
| BoundedHold.NonCandidatesPass | uyuni_ai_agent/anomaly_detector.py:454-474 | with one Apache reading a minion and one wait a minion and database, as detected, an anomaly that is no candidate is never held |
| BoundedHold.BystanderIsHeld | uyuni_ai_agent/anomaly_detector.py:454-474 | on a list with two Apache readings of one minion, which no detector emits, a non-candidate is held |
| EvidenceLedgerClass.EvidenceLedger.constructor | uyuni_ai_agent/evidence.py:75-77 | an empty ledger for its target |
| EvidenceLedgerClass.EvidenceLedger.Add | uyuni_ai_agent/evidence.py:79-108 | appends one record with the next identity, a default target and details cut at the limit |
| EvidenceLedgerClass.EvidenceLedger.AllIds | uyuni_ai_agent/evidence.py:110-112 | the identities are E1 to En |
| EvidenceLedgerClass.EvidenceLedger.Get | uyuni_ai_agent/evidence.py:114-118 | finds the nth record under En and nothing under any other text |
| EvidenceLedgerClass.GroundAnalysis | uyuni_ai_agent/evidence.py:141-259 | the gate, loop included, computes the grounded analysis |
| Grounding.ConfirmedExactlyWhenJustified | uyuni_ai_agent/evidence.py:155-206 | an analysis is confirmed exactly if enough distinct fresh, usable, uncontradicted records back it, its cause cites some of them and no other record, and a bullet cites one |
| Grounding.ConfirmedKeepsWhatIsBacked | uyuni_ai_agent/evidence.py:207-216 | a confirmed result lists each backing record once and at most three bullets that cite one, and keeps the rest |
| Grounding.DowngradedClaimsNothing | uyuni_ai_agent/evidence.py:218-259 | a downgraded result quotes at most three records of the ledger and its confidence is at most 0.3 |
| Verdicts.ConfirmedBullets | uyuni_ai_agent/evidence.py:163-167 | the bullets of a confirmed result are the first three that cite a backing record |
| Verdicts.ConfirmedSupportInOrder | uyuni_ai_agent/evidence.py:156-160 | its support is listed in the order of first citation |
| Verdicts.DowngradedQuotes | uyuni_ai_agent/evidence.py:239-259 | a downgraded result names and quotes the first three failing records, or the first three records if none fails, with component unknown and confidence the smaller of its own and 0.3 |
| Verdicts.FailedReasons | uyuni_ai_agent/evidence.py:217-236 | its reasons begin with the first three failing records, followed by each other kind at most once |
| Verdicts.TooFewMeans | uyuni_ai_agent/evidence.py:234-235 | too few records are a reason exactly if fewer than one, or than the minimum, back it |
| Verdicts.StaleReasonMeans | uyuni_ai_agent/evidence.py:172-184 | the stale reason names exactly the supporting records from the future or older than the limit |
| Verdicts.StaleReasonGiven | uyuni_ai_agent/evidence.py:224-228 | it is given exactly if there is one |
| Verdicts.ContradictedReasonMeans | uyuni_ai_agent/evidence.py:229-233 | the contradicted reason is given exactly if some backing record is contradicted, and names them all |
| Grounding.GroundingIsIdempotent | uyuni_ai_agent/evidence.py:207-216 | grounding a confirmed result again changes nothing |
| Grounding.NewEvidenceNeverConfirms | uyuni_ai_agent/evidence.py:155-206 | for an analysis that cites only known records, appended records keep a confirmation exactly if none contradicts its support, and never create one |
| Grounding.EarlyCitationIsConfirmedLater | uyuni_ai_agent/evidence.py:155-170 | the hypothesis about known citations is needed: an analysis that cites a record not collected yet is confirmed by its arrival |
| Grounding.ConfirmableExactlyWhenSustained | uyuni_ai_agent/evidence.py:155-206 | there are records to come with which an analysis is confirmed exactly if, for the present length or one that ends in a cited record, enough of what it cites lies below that length, its cause cites some of it and nothing else there, a bullet cites it, the records there are fresh, usable and contradict none of it, and the age limit is not negative |

## Left out

- HTTP, Salt, Prometheus and Uyuni clients, retries within one delivery, and SQLite itself: each call is a success, a failure or a stop, a firing request may still arrive after either of the last two, a resolution that arrives late is an alert that expires, and each store statement is atomic, as in its transaction.
- The language model, its prompts, tracing, and the deterministic analysers: an investigation returns some analysis or none.
- Dry-run mode, which acknowledges without delivering and keeps a database of its own.
- Metrics, logging, the health server, configuration parsing and inventory: they only observe, or would add only easy members.
- Digests: the fingerprint is taken to be the identity key itself, so two incidents never collide. The metric, service and resource columns follow from the key and are not repeated in the row.
- Payload annotations: a payload is its labels and the start of its generation; labels are a function of key and severity.
- Floating point: times, ratios and delays are reals; a generation's start is its time floored to whole seconds.
- The order of resolved records in one reconcile, which the table does not fix: any order is allowed.
- `start`, `wait_idle`, the timing of `close` and its result: closing and stopping workers are events that may occur at any time. A second cancellation while a worker releases its job is not part of the model.
- Arguments that the constructors of queue, breaker and backoff reject with an exception: they are preconditions of the model's constructors.
- The Python list under the heap is a sequence field that the methods reassign, and `heapq`, which is library code, is modelled as the usual sifting; its sift-down goes to a leaf and back up, as the library's does.
- Protocol: poll task and worker are events over values rather than methods, because their awaits interleave; the classes of queue and store are proved against the same functions that these events use.
- The regular expression that recognises web applications is one boolean a blocked pair; other context and the description of an anomaly are left out, but for the database and the two minions of a chain.
- The filtering of remediation steps, the wording of reasons and summaries, and the rendering of non-string details: text only. Citations in a text are given as the set of identities in it.
- Clocks: every reading is a parameter, two of them where the program reads twice; observer callbacks are returned values. Time zones of evidence are taken to be resolved.
- Guarantees the code does not give, and for which the model has counterexamples or bounds instead, are listed above under "Where the program does less than one may expect".
