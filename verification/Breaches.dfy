/**
 Each hypothesis of `OrphanAlerts.Sound` is needed: sound runs from the start lead
 to states in which one event that breaks it, and then the agent's own steps,
 leave an orphan.
 */
module Breaches {
  import opened Domain
  import opened Protocol
  import opened OrphanAlerts
  import opened SoundRuns
  import opened Releases
  import opened Necessity
  import opened LateRelease
  import Q = QueueModel
  import P = WorkerPool
  import S = StoreModel

  /** A state that a sound run from the start reaches. */
  ghost predicate Reachable(s: State) {
    exists events :: && SoundRun(SETTINGS, Initial(SETTINGS), events) && IsRun(SETTINGS, Initial(SETTINGS), events)
                     && After(SETTINGS, Initial(SETTINGS), events) == s
  }

  lemma ReachableSafe(s: State)
    requires Reachable(s)
    ensures Safe(s)
  {
    var events :| && SoundRun(SETTINGS, Initial(SETTINGS), events) && IsRun(SETTINGS, Initial(SETTINGS), events)
                  && After(SETTINGS, Initial(SETTINGS), events) == s;
    InitialSafe(SETTINGS);
    RunSafe(SETTINGS, Initial(SETTINGS), events);
  }

  lemma ReachNext(s: State, e: Event, s': State)
    requires Reachable(s) && Allowed(SETTINGS, s, e) && Sound(s, e) && Apply(SETTINGS, s, e) == s'
    ensures Reachable(s')
  {
    var events :| && SoundRun(SETTINGS, Initial(SETTINGS), events) && IsRun(SETTINGS, Initial(SETTINGS), events)
                  && After(SETTINGS, Initial(SETTINGS), events) == s;
    Reaches(SETTINGS, Initial(SETTINGS), events, s, e, s');
  }

  /** An event that leaves an orphan in one step cannot be sound. */
  lemma OrphaningIsUnsound(s: State, e: Event)
    requires Reachable(s) && Allowed(SETTINGS, s, e) && !NoOrphans(Apply(SETTINGS, s, e))
    ensures !Sound(s, e)
  {
    ReachableSafe(s);
    if Sound(s, e) {
      StepSafe(SETTINGS, s, e);
      SafeHasNoOrphans(Apply(SETTINGS, s, e));
    }
  }

  // Steps of the one worker

  lemma ReachTaken(s: State)
    requires Reachable(s) && P.Enabled(s.pool, P.Take(0))
    ensures Reachable(PoolStep(s, P.Take(0)))
  {
    ReachNext(s, Take(0), PoolStep(s, P.Take(0)));
  }

  lemma ReachAnalysed(s: State, now: real)
    requires Reachable(s) && Ready(SETTINGS, s, 0, now)
    ensures Reachable(Resume(s, 0, if LabelsChanged(ItemOf(s, 0)) then P.Resolving else P.Delivering))
  {
    var s' := Resume(s, 0, P.Investigating);
    StartStep(SETTINGS, s, 0, now);
    ReachNext(s, Start(0, now), s');
    AnalysedStep(SETTINGS, s', 0);
    var stage := if LabelsChanged(ItemOf(s, 0)) then P.Resolving else P.Delivering;
    ReachNext(s', Analysed(0, true), Resume(s', 0, stage));
    assert Resume(s', 0, stage) == Resume(s, 0, stage);
  }

  lemma ReachResolved(s: State)
    requires Reachable(s) && At(s, 0, P.Resolving) && LabelsChanged(ItemOf(s, 0)) && Actionable(s, ItemOf(s, 0))
    ensures Reachable(Resume(s, 0, P.Delivering).(alerts := Unresolved(s.alerts, ItemOf(s, 0))))
  {
    var s' := Resume(s, 0, P.ResolveReplied(true)).(alerts := Unresolved(s.alerts, ItemOf(s, 0)));
    TransitionStep(SETTINGS, s, 0);
    ReachNext(s, ServeTransition(0, true, true), s');
    TransitionedStep(SETTINGS, s', 0);
    ReachNext(s', Transitioned(0), Resume(s', 0, P.Delivering));
    assert Resume(s', 0, P.Delivering) == Resume(s, 0, P.Delivering).(alerts := s'.alerts);
  }

  lemma ReachDelivered(s: State)
    requires Reachable(s) && At(s, 0, P.Delivering)
    ensures Reachable(Resume(s, 0, P.DeliveryReplied(true)).(alerts := s.alerts + {NewLabels(ItemOf(s, 0))}))
  {
    DeliveryStep(SETTINGS, s, 0);
    ReachNext(s, ServeDelivery(0, true, true), Apply(SETTINGS, s, ServeDelivery(0, true, true)));
  }

  lemma ReachAcknowledged(s: State, now: real)
    requires Reachable(s) && At(s, 0, P.DeliveryReplied(true))
    ensures Reachable(Finish(s, 0).(rows := MarkedRows(s, 0, now)))
  {
    ReachNext(s, Delivered(0, now), Finish(s, 0).(rows := MarkedRows(s, 0, now)));
  }

  /** Nobody's poll task refers to anything, so the release is sound. */
  lemma ReachReleased(s: State)
    requires Reachable(s) && s.tasks == map[] && P.Enabled(s.pool, P.LetGo(0))
    ensures Reachable(PoolStep(s, P.LetGo(0)))
  {
    ReachNext(s, LetGo(0), PoolStep(s, P.LetGo(0)));
  }

  lemma ReachReconciled(s: State, e: Event)
    requires Reachable(s) && e.Reconcile? && Allowed(SETTINGS, s, e)
    ensures Reachable(Begin(SETTINGS, s, e))
  {
    ReachNext(s, e, Begin(SETTINGS, s, e));
  }

  lemma ReachCancelled(s: State, now: real)
    requires Reachable(s) && Enabled(SETTINGS, s, CancelNext(HOST, now))
    ensures Reachable(CancelOne(s, HOST, now))
  {
    ReachNext(s, CancelNext(HOST, now), CancelOne(s, HOST, now));
  }

  lemma ReachQueued(s: State, now: real)
    requires Reachable(s) && Enabled(SETTINGS, s, EnqueueNext(HOST, now))
    ensures Reachable(EnqueueOne(s, HOST, now))
  {
    ReachNext(s, EnqueueNext(HOST, now), EnqueueOne(s, HOST, now));
  }

  lemma ReachEnd(s: State)
    requires Reachable(s) && HOST in s.tasks
    ensures Reachable(s.(tasks := s.tasks - {HOST}))
  {
    ReachNext(s, EndTask(HOST), s.(tasks := s.tasks - {HOST}));
  }

  // The first delivery

  function Working(stage: P.Stage): State {
    QUEUED.(pool := OneWorker([], {INCIDENT}, P.Running(Job(Warning, 0, 0.0), stage), 1, 0))
  }

  lemma QueuedIsReachable()
    ensures Reachable(QUEUED)
  {
    var events := FirstPoll();
  }

  lemma QueuedIsTaken()
    ensures Reachable(Working(P.Started))
  {
    QueuedIsReachable();
    ReachTaken(QUEUED);
    assert PoolStep(QUEUED, P.Take(0)) == Working(P.Started);
  }

  lemma DeliveringIsReachable()
    ensures Reachable(Working(P.Delivering))
  {
    QueuedIsTaken();
    ReachAnalysed(Working(P.Started), 0.0);
    assert Resume(Working(P.Started), 0, P.Delivering) == Working(P.Delivering);
  }

  lemma RepliedIsReachable()
    ensures Reachable(REPLIED)
  {
    DeliveringIsReachable();
    ReachDelivered(Working(P.Delivering));
    assert {} + {Alert(Warning)} == {Alert(Warning)};
    assert Resume(Working(P.Delivering), 0, P.DeliveryReplied(true)).(alerts := {Alert(Warning)}) == REPLIED;
  }

  /** A delivery is out whose alert is not the stored one. */
  lemma FirstDelivery() returns (s: State)
    ensures Reachable(s) && At(s, 0, P.Delivering) && !StoredAlready(s, NewLabels(ItemOf(s, 0)))
  {
    DeliveringIsReachable();
    s := Working(P.Delivering);
  }

  /** It is answered, its alert is there, and the acknowledgement is still to come. */
  lemma FirstReply() returns (s: State)
    ensures Reachable(s) && At(s, 0, P.DeliveryReplied(true)) && !NothingToMark(s, 0)
  {
    RepliedIsReachable();
    s := REPLIED;
  }

  /** A firing request that takes effect and is reported as a failure. */
  lemma UnreportedDeliveryOrphans() returns (s: State)
    ensures Reachable(s) && Enabled(SETTINGS, s, ServeDelivery(0, true, false))
    ensures !Sound(s, ServeDelivery(0, true, false))
    ensures var s' := Apply(SETTINGS, s, ServeDelivery(0, true, false));
            Enabled(SETTINGS, s', Delivered(0, 1.0)) && !NoOrphans(Apply(SETTINGS, s', Delivered(0, 1.0)))
  {
    s := FirstDelivery();
    ReachableSafe(s);
    NewLabelsKey(s, 0);
    UnreportedDelivery(SETTINGS, s, 0, true, false, 1.0);
  }

  /** One that is given up as failed, and arrives unaccounted for once the failure is counted. */
  lemma LostDeliveryOrphans() returns (s: State, id: Labels)
    ensures Reachable(s) && Enabled(SETTINGS, s, Arrive(id)) && !Sound(s, Arrive(id))
    ensures !NoOrphans(Apply(SETTINGS, s, Arrive(id)))
  {
    var s0 := FirstDelivery();
    id := NewLabels(ItemOf(s0, 0));
    ReachableSafe(s0);
    LostDelivery(SETTINGS, s0, 0, 1.0);
    var s1 := Apply(SETTINGS, s0, LoseDelivery(0));
    ReachNext(s0, LoseDelivery(0), s1);
    s := Apply(SETTINGS, s1, Delivered(0, 1.0));
    ReachNext(s1, Delivered(0, 1.0), s);
    OrphaningIsUnsound(s, Arrive(id));
  }

  /** A worker that is stopped before the acknowledgement. */
  lemma StopOrphans(how: StopKind) returns (s: State)
    ensures Reachable(s) && Enabled(SETTINGS, s, Stop(0, how)) && !Sound(s, Stop(0, how))
    ensures !NoOrphans(Apply(SETTINGS, s, Stop(0, how)))
  {
    s := FirstReply();
    ReachableSafe(s);
    NewLabelsKey(s, 0);
    StoppedBeforeMarking(SETTINGS, s, 0, how);
  }

  /** A restart before the acknowledgement. */
  lemma RestartOrphansAlert() returns (s: State)
    ensures Reachable(s) && !Sound(s, Restart) && !NoOrphans(Apply(SETTINGS, s, Restart))
  {
    s := FirstReply();
    RestartFrom(s);
  }

  lemma RestartFrom(s: State)
    requires Reachable(s) && !NothingToMark(s, 0)
    ensures !NothingUnmarked(s) && !NoOrphans(Apply(SETTINGS, s, Restart))
  {
    ReachableSafe(s);
    RestartOrphans(SETTINGS, s);
  }

  // An escalation

  const STORED := Some(Payload(Alert(Warning), 0))

  const ACKED_ROW := FIRST_ROW.(lastEmitted := Some(1.0), lastEmittedSeverity := Some(Warning), payload := STORED)

  const ACKED := State(
    map[INCIDENT := ACKED_ROW], OneWorker([], {}, P.Idle, 1, 1), map[], {Alert(Warning)}, {})

  const COUNTED := ACKED.(pool := OneWorker([], {INCIDENT}, P.Counted(Job(Warning, 0, 0.0)), 1, 1))

  lemma CountedIsReachable()
    ensures Reachable(COUNTED)
  {
    RepliedIsReachable();
    ReachAcknowledged(REPLIED, 1.0);
    assert MarkedRows(REPLIED, 0, 1.0) == COUNTED.rows;
    assert Finish(REPLIED, 0).pool == COUNTED.pool;
  }

  lemma AckedIsReachable()
    ensures Reachable(ACKED)
  {
    CountedIsReachable();
    ReachReleased(COUNTED);
    assert PoolStep(COUNTED, P.LetGo(0)) == ACKED;
  }

  const RISEN_ROW := ACKED_ROW.(severity := Critical, lastSeen := 2.0)

  const RISE := Firing(Sighting(Critical), INCIDENT, 0, STORED)

  const RISE_JOB := Q.Item(0, 1, INCIDENT, Work(RISE, 2.0))

  function Rising(pool: P.Pool): State {
    State(map[INCIDENT := RISEN_ROW], pool, map[], {Alert(Warning)}, {})
  }

  function RisingAt(stage: P.Stage): State {
    Rising(OneWorker([], {INCIDENT}, P.Running(RISE_JOB, stage), 2, 1))
  }

  const RISE_LISTED := Rising(OneWorker([], {}, P.Idle, 1, 1)).(tasks := map[HOST := Task([], NoPost, [RISE])])

  const RISE_QUEUED := Rising(OneWorker([RISE_JOB], {}, P.Idle, 2, 1))

  lemma RiseIsListed()
    ensures Reachable(RISE_LISTED)
  {
    AckedIsReachable();
    SingleSelection(Critical);
    SingleFiring(ACKED.rows, Critical, 2.0);
    assert S.Reconcile(ACKED.rows, HOST, [Sighting(Critical)], 2.0) == map[INCIDENT := RISEN_ROW];
    var e := Reconcile(HOST, [Sighting(Critical)], 2.0, []);
    ReachReconciled(ACKED, e);
    assert Begin(SETTINGS, ACKED, e) == RISE_LISTED;
  }

  const RISE_DONE := RISE_QUEUED.(tasks := map[HOST := Task([], NoPost, [])])

  lemma RiseIsOffered()
    ensures P.Apply(RISE_LISTED.pool, P.Offer(INCIDENT, Critical, Work(RISE, 2.0))) == RISE_QUEUED.pool
  {
  }

  lemma EnqueuedState(s: State, f: Firing, now: real)
    requires s.tasks == map[HOST := Task([], NoPost, [f])] && 1 <= s.pool.queue.maxPending
    ensures EnqueueOne(s, HOST, now)
         == s.(pool := P.Apply(s.pool, P.Offer(f.fingerprint, f.anomaly.severity, Work(f, now))),
               tasks := map[HOST := Task([], NoPost, [])])
  {
    assert [f][1..] == [];
    assert s.tasks[HOST := Task([], NoPost, [])] == map[HOST := Task([], NoPost, [])];
  }

  lemma RiseIsDone()
    ensures Reachable(RISE_DONE)
  {
    RiseIsListed();
    ReachQueued(RISE_LISTED, 2.0);
    RiseIsOffered();
    EnqueuedState(RISE_LISTED, RISE, 2.0);
  }

  lemma RiseIsQueued()
    ensures Reachable(RISE_QUEUED)
  {
    RiseIsDone();
    ReachEnd(RISE_DONE);
    assert RISE_DONE.tasks - {HOST} == map[];
  }

  lemma RisingIsReachable()
    ensures Reachable(RisingAt(P.Resolving))
  {
    RiseIsQueued();
    ReachTaken(RISE_QUEUED);
    assert PoolStep(RISE_QUEUED, P.Take(0)) == RisingAt(P.Started);
    ReachAnalysed(RisingAt(P.Started), 2.0);
    assert Resume(RisingAt(P.Started), 0, P.Resolving) == RisingAt(P.Resolving);
  }

  /** The old alert is to be resolved before the new one is delivered. */
  lemma FirstTransition() returns (s: State)
    ensures Reachable(s) && At(s, 0, P.Resolving)
    ensures LabelsChanged(ItemOf(s, 0)) && Actionable(s, ItemOf(s, 0)) && !PreviousGone(s, ItemOf(s, 0))
  {
    RisingIsReachable();
    s := RisingAt(P.Resolving);
  }

  /** A label transition that is reported as done and did nothing: the delivery makes a second alert. */
  lemma UneffectiveTransitionOrphans() returns (s: State, s': State)
    ensures Reachable(s) && Enabled(SETTINGS, s, ServeTransition(0, false, true))
    ensures !Sound(s, ServeTransition(0, false, true))
    ensures Enabled(SETTINGS, Apply(SETTINGS, s, ServeTransition(0, false, true)), Transitioned(0))
    ensures s' == Apply(SETTINGS, Apply(SETTINGS, s, ServeTransition(0, false, true)), Transitioned(0))
    ensures At(s', 0, P.Delivering) && !NoOrphans(Apply(SETTINGS, s', ServeDelivery(0, true, true)))
  {
    s := FirstTransition();
    ReachableSafe(s);
    s' := UneffectiveTransition(SETTINGS, s, 0);
  }

  // A recovery

  function Recovery(row: S.Row): S.Record {
    S.RecordOf(row, INCIDENT)
  }

  function Recovering(row: S.Row): Event {
    Reconcile(HOST, [], 3.0, [Recovery(row)])
  }

  /** A cycle without the incident lists its resolution. */
  lemma RecoveryIsListed(s: State, row: S.Row)
    requires Reachable(s) && s.rows == map[INCIDENT := row] && s.tasks == map[]
    requires row.active && row.minion == HOST
    ensures Reachable(Listed(s, row))
  {
    RecoveryIsReported(s.rows, row);
    ReachReconciled(s, Recovering(row));
    assert Begin(SETTINGS, s, Recovering(row)) == Listed(s, row);
  }

  lemma RecoveryIsReported(rows: S.Rows, row: S.Row)
    requires rows == map[INCIDENT := row] && row.active && row.minion == HOST
    ensures OfMinion([], HOST) == [] && S.PreferMoreSevere([]) == S.Selection([], map[])
    ensures S.Reconcile(rows, HOST, [], 3.0) == map[INCIDENT := row.(absent := row.absent + 1)]
    ensures S.ListsResolved(SETTINGS.store, rows, HOST, map[], [Recovery(row)])
    ensures S.CycleFiring(SETTINGS.store, rows, HOST, [], 3.0) == []
  {
    assert S.ReportsResolved(SETTINGS.store, rows, HOST, map[], INCIDENT);
    assert S.ResolvedSet(SETTINGS.store, rows, HOST, map[]) == {Recovery(row)};
  }

  function Listed(s: State, row: S.Row): State {
    s.(rows := map[INCIDENT := row.(absent := row.absent + 1)],
       tasks := map[HOST := Task([Recovery(row)], NoPost, [])])
  }

  /** An incident that is neither pending nor in flight: its resolution is sent. */
  lemma CancelSends(s: State, now: real)
    requires HOST in s.tasks && s.tasks[HOST].resolved != [] && s.tasks[HOST].resolved[0].payload.Some?
    requires var fp := s.tasks[HOST].resolved[0].fingerprint;
             fp !in s.pool.queue.inFlight && Q.Find(s.pool.queue.pending, fp).None?
    ensures var record, s' := s.tasks[HOST].resolved[0], CancelOne(s, HOST, now);
            && HOST in s'.tasks && s'.alerts == s.alerts
            && s'.tasks[HOST].post == Sent(record.fingerprint, record.payload.value.labels)
  {
  }

  /** A resolution has been sent whose alert is there. */
  lemma FirstResolution() returns (s: State)
    ensures Reachable(s) && HOST in s.tasks && s.tasks[HOST].post.Sent? && s.tasks[HOST].post.labels in s.alerts
  {
    AckedIsReachable();
    RecoveryIsListed(ACKED, ACKED_ROW);
    var listed := Listed(ACKED, ACKED_ROW);
    ReachCancelled(listed, 3.0);
    CancelSends(listed, 3.0);
    s := CancelOne(listed, HOST, 3.0);
  }

  /** A resolution that is reported as done and did nothing: the row is resolved and the alert stays. */
  lemma UneffectiveResolutionOrphans() returns (s: State)
    ensures Reachable(s) && Enabled(SETTINGS, s, ServeResolution(HOST, false, true))
    ensures !Sound(s, ServeResolution(HOST, false, true))
    ensures var s' := Apply(SETTINGS, s, ServeResolution(HOST, false, true));
            Enabled(SETTINGS, s', FinishResolution(HOST, 4.0)) &&
            !NoOrphans(Apply(SETTINGS, s', FinishResolution(HOST, 4.0)))
  {
    s := FirstResolution();
    ReachableSafe(s);
    UneffectiveResolution(SETTINGS, s, HOST, false, true, 4.0);
  }

  /** The escalated alert has been delivered, and the acknowledgement is still to come. */
  const RISEN := RisingAt(P.DeliveryReplied(true)).(alerts := {Alert(Critical)})

  lemma RisenIsReachable()
    ensures Reachable(RISEN)
  {
    RisingIsReachable();
    var s := RisingAt(P.Resolving);
    ReachResolved(s);
    var delivering := RisingAt(P.Delivering).(alerts := {});
    assert Unresolved({Alert(Warning)}, RISE_JOB) == {};
    assert Resume(s, 0, P.Delivering).(alerts := {}) == delivering;
    ReachDelivered(delivering);
    assert {} + {Alert(Critical)} == {Alert(Critical)};
    assert Resume(delivering, 0, P.DeliveryReplied(true)).(alerts := {Alert(Critical)}) == RISEN;
  }

  /** An acknowledgement leaves tasks and alerts alone. */
  lemma AcknowledgedState(s: State, now: real)
    requires At(s, 0, P.DeliveryReplied(true))
    ensures var s' := Finish(s, 0).(rows := MarkedRows(s, 0, now));
            && s'.tasks == s.tasks && s'.alerts == s.alerts && 0 < |s'.pool.workers|
            && s'.pool.workers[0] == P.Counted(ItemOf(s, 0))
  {
  }

  /** The next cycle lists the old payload before the new one is acknowledged. */
  lemma StaleRecord() returns (s: State)
    ensures Reachable(s) && AboutToRelease(s, 0, INCIDENT)
    ensures s.tasks[HOST].resolved == [Recovery(RISEN_ROW)] && s.alerts == {Alert(Critical)}
  {
    RisenIsReachable();
    RecoveryIsListed(RISEN, RISEN_ROW);
    var falling := Listed(RISEN, RISEN_ROW);
    ReachAcknowledged(falling, 4.0);
    AcknowledgedState(falling, 4.0);
    s := Finish(falling, 0).(rows := MarkedRows(falling, 0, 4.0));
  }

  /** A release before the resolution of a payload that is no longer the stored one: the new alert stays. */
  lemma LateReleaseMisses() returns (s: State)
    ensures Reachable(s) && Enabled(SETTINGS, s, LetGo(0)) && !Sound(s, LetGo(0))
    ensures var s' := Apply(SETTINGS, s, LetGo(0));
            IsRun(SETTINGS, s', Resolution(HOST, 5.0)) && !NoOrphans(After(SETTINGS, s', Resolution(HOST, 5.0)))
  {
    s := StaleRecord();
    ReachableSafe(s);
    assert Recovery(RISEN_ROW) in s.tasks[HOST].resolved && Alert(Critical) in s.alerts;
    assert !Covers(s.alerts, Some(Alert(Warning)), INCIDENT);
    assert !UnreadCovers(s, INCIDENT);
    ReleaseBeforeResolution(SETTINGS, s, 0, INCIDENT, 5.0);
  }
}
