/**
 A job that is released while its minion's poll task has still to act on what it
 read about the incident. If that is the task's next act, a resolution leaves an
 orphan exactly when what was read does not cover the alert that is there, and so
 does a queued job once an idle worker gets to it. A queue that does not admit
 the firing starts no job.
 */
module Releases {
  import opened Domain
  import opened Protocol
  import opened Coherence
  import opened OrphanAlerts
  import opened SoundRuns
  import Q = QueueModel
  import P = WorkerPool
  import S = StoreModel

  /** Worker w is done with a job of `fp` and still holds it; the minion's poll task is between two deliveries. */
  ghost predicate AboutToRelease(s: State, w: nat, fp: Key) {
    && w < |s.pool.workers| && (s.pool.workers[w].Counted? || s.pool.workers[w].Interrupted?)
    && s.pool.workers[w].item.fingerprint == fp
    && fp.minion in s.tasks && s.tasks[fp.minion].post.NoPost?
  }

  // The task has read the incident as resolved

  /** Nothing but this incident and its alerts changed, and its row is resolved: it must have no alert left. */
  lemma ResolvedOrphans(s: State, s': State, fp: Key)
    requires NoOrphans(s) && s'.alerts <= s.alerts && (forall id :: id in s.alerts && id.key != fp ==> id in s'.alerts)
    requires fp in s'.rows && !s'.rows[fp].active
    requires forall other :: other in s.rows && other != fp ==> other in s'.rows && s'.rows[other] == s.rows[other]
    requires forall v: nat, id: Labels :: id.key != fp && AboutToMark(s.pool, v, id) ==> AboutToMark(s'.pool, v, id)
    ensures NoOrphans(s') <==> forall id :: id in s'.alerts ==> id.key != fp
  {
  }

  /** The release itself changes one phase and the in-flight set. */
  lemma ReleaseKeeps(c: Settings, s: State, w: nat, fp: Key)
    requires Safe(s) && AboutToRelease(s, w, fp)
    ensures Enabled(c, s, LetGo(w))
    ensures var s' := Apply(c, s, LetGo(w));
            && s' == s.(pool := s'.pool)
            && fp !in s'.pool.queue.inFlight && s'.pool.queue.pending == s.pool.queue.pending
            && Q.Find(s'.pool.queue.pending, fp).None?
            && (forall v: nat, id :: AboutToMark(s.pool, v, id) ==> AboutToMark(s'.pool, v, id))
  {
    var s' := Apply(c, s, LetGo(w));
    assert P.Holds(s.pool, w, fp);
    Q.FindMember(s.pool.queue.pending, fp);
    forall v: nat, id | AboutToMark(s.pool, v, id) ensures AboutToMark(s'.pool, v, id) {
      assert s'.pool.workers[v] == s.pool.workers[v];
    }
  }

  /** Without a payload the task resolves the incident locally: harmless exactly if there is no alert. */
  lemma ReleaseBeforeLocalResolution(c: Settings, s: State, w: nat, fp: Key, now: real)
    requires Safe(s) && AboutToRelease(s, w, fp)
    requires var task := s.tasks[fp.minion];
             task.resolved != [] && task.resolved[0].fingerprint == fp && task.resolved[0].payload.None?
    ensures var s' := Apply(c, s, LetGo(w));
            Allowed(c, s', CancelNext(fp.minion, now)) &&
            (NoOrphans(Apply(c, s', CancelNext(fp.minion, now))) <==> Covers(s.alerts, None, fp))
  {
    var s' := Apply(c, s, LetGo(w));
    ReleaseKeeps(c, s, w, fp);
    SafeHasNoOrphans(s);
    var task := s.tasks[fp.minion];
    assert TaskLive(s.rows, s.pool, fp.minion, task) && task.resolved[0] in task.resolved;
    ResolvedOrphans(s, CancelOne(s', fp.minion, now), fp);
  }

  /** The events of a resolution that is sent, takes effect and is reported as done. */
  function Resolution(minion: string, now: real): seq<Event> {
    [CancelNext(minion, now)] + [ServeResolution(minion, true, true)] + [FinishResolution(minion, now)]
  }

  /** The state that those three events lead to, for an incident that is neither pending nor in flight. */
  lemma ResolutionRun(c: Settings, s: State, minion: string, now: real) returns (s': State)
    requires minion in s.tasks && s.tasks[minion].post.NoPost? && s.tasks[minion].resolved != []
    requires s.tasks[minion].resolved[0].payload.Some?
    requires var fp := s.tasks[minion].resolved[0].fingerprint;
             fp !in s.pool.queue.inFlight && Q.Find(s.pool.queue.pending, fp).None?
    ensures IsRun(c, s, Resolution(minion, now)) && After(c, s, Resolution(minion, now)) == s'
    ensures var record := s.tasks[minion].resolved[0];
            && s'.rows == S.MarkResolved(s.rows, record.fingerprint, now)
            && s'.alerts == s.alerts - {record.payload.value.labels} && s'.pool == s.pool
  {
    var sent := CancelOne(s, minion, now);
    One(c, s, CancelNext(minion, now), sent);
    var answered := AnswerResolution(sent, minion, true, true);
    Reaches(c, s, [CancelNext(minion, now)], sent, ServeResolution(minion, true, true), answered);
    s' := ConcludeResolution(answered, minion, now);
    Reaches(c, s, [CancelNext(minion, now)] + [ServeResolution(minion, true, true)], answered,
            FinishResolution(minion, now), s');
  }

  /** With a payload the task resolves what the payload names: harmless exactly if there is no other alert. */
  lemma ReleaseBeforeResolution(c: Settings, s: State, w: nat, fp: Key, now: real)
    requires Safe(s) && AboutToRelease(s, w, fp)
    requires var task := s.tasks[fp.minion];
             task.resolved != [] && task.resolved[0].fingerprint == fp && task.resolved[0].payload.Some?
    ensures var s' := Apply(c, s, LetGo(w));
            var labels := s.tasks[fp.minion].resolved[0].payload.value.labels;
            IsRun(c, s', Resolution(fp.minion, now)) &&
            (NoOrphans(After(c, s', Resolution(fp.minion, now))) <==> Covers(s.alerts, Some(labels), fp))
  {
    var task := s.tasks[fp.minion];
    assert TaskLive(s.rows, s.pool, fp.minion, task) && task.resolved[0] in task.resolved;
    ReleaseKeeps(c, s, w, fp);
    SafeHasNoOrphans(s);
    var done := ResolutionRun(c, Apply(c, s, LetGo(w)), fp.minion, now);
    SettledOrphans(s, done, fp, task.resolved[0].payload.value.labels, now);
  }

  lemma SettledOrphans(s: State, s': State, fp: Key, labels: Labels, now: real)
    requires NoOrphans(s) && fp in s.rows && labels.key == fp
    requires s'.rows == S.MarkResolved(s.rows, fp, now) && s'.alerts == s.alerts - {labels}
    requires forall v: nat, id: Labels :: AboutToMark(s.pool, v, id) ==> AboutToMark(s'.pool, v, id)
    ensures NoOrphans(s') <==> Covers(s.alerts, Some(labels), fp)
  {
    ResolvedOrphans(s, s', fp);
    if id :| id in s.alerts && id.key == fp && id != labels { assert id in s'.alerts; }
  }

  // The task has read the incident as firing

  /** The events of a job that goes through without a stop, its transition and its delivery taking effect. */
  function Investigation(w: nat, changed: bool, now: real): seq<Event> {
    [Start(w, now)] + Preparation(w, changed) + [ServeDelivery(w, true, true)]
  }

  /** The part of it before the delivery: the old labels are resolved if they have changed. */
  function Preparation(w: nat, changed: bool): seq<Event> {
    if changed then [Analysed(w, true)] + [ServeTransition(w, true, true)] + [Transitioned(w)] else [Analysed(w, true)]
  }

  /** What worker w's job resolves, and what it leaves. */
  function Unresolved(alerts: set<Labels>, item: Q.Item): set<Labels> {
    if LabelsChanged(item) then alerts - {item.payload.firing.previous.value.labels} else alerts
  }

  ghost predicate Ready(c: Settings, s: State, w: nat, now: real) {
    && At(s, w, P.Started) && Actionable(s, ItemOf(s, w))
    && now - ItemOf(s, w).payload.detectedAt <= c.maxJobAge
  }

  // The single events

  lemma StartStep(c: Settings, s: State, w: nat, now: real)
    requires Ready(c, s, w, now)
    ensures Allowed(c, s, Start(w, now)) && Sound(s, Start(w, now))
    ensures Apply(c, s, Start(w, now)) == Resume(s, w, P.Investigating)
  {
  }

  lemma AnalysedStep(c: Settings, s: State, w: nat)
    requires At(s, w, P.Investigating) && Actionable(s, ItemOf(s, w))
    ensures Allowed(c, s, Analysed(w, true)) && Sound(s, Analysed(w, true))
    ensures Apply(c, s, Analysed(w, true))
         == Resume(s, w, if LabelsChanged(ItemOf(s, w)) then P.Resolving else P.Delivering)
  {
  }

  lemma TransitionStep(c: Settings, s: State, w: nat)
    requires At(s, w, P.Resolving) && LabelsChanged(ItemOf(s, w))
    ensures Allowed(c, s, ServeTransition(w, true, true)) && Sound(s, ServeTransition(w, true, true))
    ensures Apply(c, s, ServeTransition(w, true, true))
         == Resume(s, w, P.ResolveReplied(true)).(alerts := Unresolved(s.alerts, ItemOf(s, w)))
  {
  }

  lemma TransitionedStep(c: Settings, s: State, w: nat)
    requires At(s, w, P.ResolveReplied(true)) && Actionable(s, ItemOf(s, w))
    ensures Allowed(c, s, Transitioned(w)) && Sound(s, Transitioned(w))
    ensures Apply(c, s, Transitioned(w)) == Resume(s, w, P.Delivering)
  {
  }

  lemma DeliveryStep(c: Settings, s: State, w: nat)
    requires At(s, w, P.Delivering)
    ensures Allowed(c, s, ServeDelivery(w, true, true)) && Sound(s, ServeDelivery(w, true, true))
    ensures Apply(c, s, ServeDelivery(w, true, true))
         == Resume(s, w, P.DeliveryReplied(true)).(alerts := s.alerts + {NewLabels(ItemOf(s, w))})
  {
  }

  lemma PreparationRun(c: Settings, s: State, w: nat) returns (s': State)
    requires At(s, w, P.Investigating) && Actionable(s, ItemOf(s, w))
    ensures var events := Preparation(w, LabelsChanged(ItemOf(s, w)));
            SoundRun(c, s, events) && IsRun(c, s, events) && After(c, s, events) == s'
    ensures s' == Resume(s, w, P.Delivering).(alerts := Unresolved(s.alerts, ItemOf(s, w)))
  {
    AnalysedStep(c, s, w);
    if LabelsChanged(ItemOf(s, w)) {
      var s1 := Resume(s, w, P.Resolving);
      One(c, s, Analysed(w, true), s1);
      TransitionStep(c, s1, w);
      var s2 := Resume(s1, w, P.ResolveReplied(true)).(alerts := Unresolved(s.alerts, ItemOf(s, w)));
      Reaches(c, s, [Analysed(w, true)], s1, ServeTransition(w, true, true), s2);
      TransitionedStep(c, s2, w);
      s' := Resume(s2, w, P.Delivering);
      Reaches(c, s, [Analysed(w, true)] + [ServeTransition(w, true, true)], s2, Transitioned(w), s');
    } else {
      s' := Resume(s, w, P.Delivering);
      One(c, s, Analysed(w, true), s');
    }
  }

  /** Between the start of a job and the answer to its delivery only its stage and the alerts change. */
  lemma InvestigationRun(c: Settings, s: State, w: nat, now: real) returns (s': State)
    requires Ready(c, s, w, now)
    ensures var events := Investigation(w, LabelsChanged(ItemOf(s, w)), now);
            SoundRun(c, s, events) && IsRun(c, s, events) && After(c, s, events) == s'
    ensures s' == Resume(s, w, P.DeliveryReplied(true)).(
                    alerts := Unresolved(s.alerts, ItemOf(s, w)) + {NewLabels(ItemOf(s, w))})
  {
    var s1 := Resume(s, w, P.Investigating);
    StartStep(c, s, w, now);
    One(c, s, Start(w, now), s1);
    var s2 := PreparationRun(c, s1, w);
    var preparation := Preparation(w, LabelsChanged(ItemOf(s, w)));
    Concat(c, s, [Start(w, now)], preparation);
    DeliveryStep(c, s2, w);
    s' := Resume(s2, w, P.DeliveryReplied(true)).(alerts := s2.alerts + {NewLabels(ItemOf(s, w))});
    Reaches(c, s, [Start(w, now)] + preparation, s2, ServeDelivery(w, true, true), s');
  }

  /**
   From any coherent state without orphans, a job that runs through leaves an
   orphan exactly when there was an alert that it neither resolves nor repeats.
   */
  lemma JobOrphans(c: Settings, s: State, w: nat, now: real)
    requires Coherent(s) && NoOrphans(s) && Ready(c, s, w, now)
    ensures var events := Investigation(w, LabelsChanged(ItemOf(s, w)), now);
            IsRun(c, s, events) &&
            (NoOrphans(After(c, s, events)) <==> FiringCovers(s.alerts, ItemOf(s, w).payload.firing))
  {
    var s' := InvestigationRun(c, s, w, now);
    var item := ItemOf(s, w);
    var fp, id := item.fingerprint, NewLabels(item);
    assert JobLive(s.rows, item) && P.Holds(s.pool, w, fp);
    assert AboutToMark(s'.pool, w, id) && id in s'.alerts;
    forall v: nat, x: Labels | AboutToMark(s.pool, v, x) ensures AboutToMark(s'.pool, v, x) {
      assert v != w;
    }
    if FiringCovers(s.alerts, item.payload.firing) {
      forall x | x in s'.alerts && x.key == fp ensures x == id {
        assert x in Unresolved(s.alerts, item) + {id};
      }
      assert NoOrphans(s');
    } else {
      var x :| x in s.alerts && x.key == fp && LabelsIn(item.payload.firing.previous) != Some(x) && x != id;
      assert x in s'.alerts;
    }
  }

  // Working off the queue

  /** An idle worker takes the job at the head, is stopped at once, and releases it. */
  function Skip(v: nat): seq<Event> {
    [Take(v)] + [Stop(v, Timeout)] + [LetGo(v)]
  }

  /** It gets rid of k jobs that way, and then takes the next one. */
  function Drain(v: nat, k: nat): seq<Event> {
    if k == 0 then [Take(v)] else Skip(v) + Drain(v, k - 1)
  }

  ghost predicate IdleAt(s: State, v: nat) {
    v < |s.pool.workers| && s.pool.workers[v].Idle?
  }

  lemma TakeStep(c: Settings, s: State, v: nat) returns (s': State)
    requires IdleAt(s, v) && s.pool.queue.pending != []
    ensures Enabled(c, s, Take(v)) && s' == Apply(c, s, Take(v)) == PoolStep(s, P.Take(v))
    ensures s'.pool.workers == s.pool.workers[v := P.Running(s.pool.queue.pending[0], P.Started)]
    ensures s'.pool.queue.pending == s.pool.queue.pending[1..]
  {
    s' := PoolStep(s, P.Take(v));
  }

  lemma StopStep(c: Settings, s: State, v: nat) returns (s': State)
    requires At(s, v, P.Started)
    ensures Enabled(c, s, Stop(v, Timeout)) && s' == Apply(c, s, Stop(v, Timeout)) == PoolStep(s, P.Finish(v, true))
    ensures s'.pool.workers == s.pool.workers[v := P.Counted(ItemOf(s, v))]
    ensures s'.pool.queue.pending == s.pool.queue.pending
  {
    s' := PoolStep(s, P.Finish(v, true));
    assert s.strays + {} == s.strays;
  }

  lemma LetGoStep(c: Settings, s: State, v: nat) returns (s': State)
    requires v < |s.pool.workers| && s.pool.workers[v].Counted?
    ensures Enabled(c, s, LetGo(v)) && s' == Apply(c, s, LetGo(v)) == PoolStep(s, P.LetGo(v))
    ensures s'.pool.workers == s.pool.workers[v := P.Idle]
    ensures s'.pool.queue.pending == s.pool.queue.pending
  {
    s' := PoolStep(s, P.LetGo(v));
  }

  lemma TakeAndStop(c: Settings, s: State, v: nat) returns (s': State)
    requires 1 <= c.maxPending && Coherent(s) && IdleAt(s, v) && s.pool.queue.pending != []
    ensures IsRun(c, s, [Take(v)] + [Stop(v, Timeout)]) && After(c, s, [Take(v)] + [Stop(v, Timeout)]) == s'
    ensures Coherent(s') && s' == s.(pool := s'.pool)
    ensures s'.pool.workers == s.pool.workers[v := P.Counted(s.pool.queue.pending[0])]
    ensures s'.pool.queue.pending == s.pool.queue.pending[1..]
  {
    var s1 := TakeStep(c, s, v);
    StepCoherent(c, s, Take(v));
    Single(c, s, Take(v), s1);
    s' := StopStep(c, s1, v);
    StepCoherent(c, s1, Stop(v, Timeout));
    Single(c, s1, Stop(v, Timeout), s');
    Follows(c, s, [Take(v)], [Stop(v, Timeout)]);
  }

  /** Skipping a job changes neither rows nor alerts, and no other worker. */
  lemma SkipRun(c: Settings, s: State, v: nat) returns (s': State)
    requires 1 <= c.maxPending && Coherent(s) && NoOrphans(s) && IdleAt(s, v) && s.pool.queue.pending != []
    ensures IsRun(c, s, Skip(v)) && After(c, s, Skip(v)) == s'
    ensures Coherent(s') && NoOrphans(s') && s'.rows == s.rows && s'.alerts == s.alerts && IdleAt(s', v)
    ensures s'.pool.queue.pending == s.pool.queue.pending[1..]
  {
    var stopped := TakeAndStop(c, s, v);
    s' := LetGoStep(c, stopped, v);
    StepCoherent(c, stopped, LetGo(v));
    Single(c, stopped, LetGo(v), s');
    Follows(c, s, [Take(v)] + [Stop(v, Timeout)], [LetGo(v)]);
    MarkersKept(s, s', v);
  }

  /** A state that differs in the pool only, and there in one worker that was idle, has the same orphans. */
  lemma MarkersKept(s: State, s': State, v: nat)
    requires NoOrphans(s) && s'.rows == s.rows && s'.alerts == s.alerts && |s'.pool.workers| == |s.pool.workers|
    requires IdleAt(s, v)
    requires forall w :: 0 <= w < |s.pool.workers| && w != v ==> s'.pool.workers[w] == s.pool.workers[w]
    ensures NoOrphans(s')
  {
    forall w: nat, id: Labels | AboutToMark(s.pool, w, id) ensures AboutToMark(s'.pool, w, id) {
      assert w != v;
    }
  }

  lemma TakeRun(c: Settings, s: State, v: nat) returns (s': State)
    requires 1 <= c.maxPending && Coherent(s) && NoOrphans(s) && IdleAt(s, v) && s.pool.queue.pending != []
    ensures IsRun(c, s, [Take(v)]) && After(c, s, [Take(v)]) == s'
    ensures Coherent(s') && NoOrphans(s') && s'.rows == s.rows && s'.alerts == s.alerts
    ensures At(s', v, P.Started) && ItemOf(s', v) == s.pool.queue.pending[0]
  {
    s' := TakeStep(c, s, v);
    StepCoherent(c, s, Take(v));
    Single(c, s, Take(v), s');
    MarkersKept(s, s', v);
  }

  lemma {:induction false} DrainRun(c: Settings, s: State, v: nat, k: nat) returns (s': State)
    requires 1 <= c.maxPending && Coherent(s) && NoOrphans(s) && IdleAt(s, v) && k < |s.pool.queue.pending|
    ensures IsRun(c, s, Drain(v, k)) && After(c, s, Drain(v, k)) == s'
    ensures Coherent(s') && NoOrphans(s') && s'.rows == s.rows && s'.alerts == s.alerts
    ensures At(s', v, P.Started) && ItemOf(s', v) == s.pool.queue.pending[k]
    decreases k
  {
    if k == 0 {
      s' := TakeRun(c, s, v);
    } else {
      var skipped := SkipRun(c, s, v);
      s' := DrainRun(c, skipped, v, k - 1);
      Follows(c, s, Skip(v), Drain(v, k - 1));
    }
  }

  /** A pending job that is actionable and not too old. */
  ghost predicate Waiting(c: Settings, s: State, k: nat, now: real) {
    && k < |s.pool.queue.pending| && Actionable(s, s.pool.queue.pending[k])
    && now - s.pool.queue.pending[k].payload.detectedAt <= c.maxJobAge
  }

  /**
   Whatever is queued before it, an idle worker can get to a waiting job, and
   then leaves an orphan exactly when there was an alert that the job neither
   resolves nor repeats.
   */
  lemma WaitingJobOrphans(c: Settings, s: State, v: nat, k: nat, now: real)
    requires 1 <= c.maxPending && Coherent(s) && NoOrphans(s) && IdleAt(s, v) && Waiting(c, s, k, now)
    ensures var x := s.pool.queue.pending[k];
            var events := Drain(v, k) + Investigation(v, LabelsChanged(x), now);
            IsRun(c, s, events) && (NoOrphans(After(c, s, events)) <==> FiringCovers(s.alerts, x.payload.firing))
  {
    var s' := DrainRun(c, s, v, k);
    JobOrphans(c, s', v, now);
    Follows(c, s, Drain(v, k), Investigation(v, LabelsChanged(s.pool.queue.pending[k]), now));
  }

  // Queueing what was read

  /** The poll task's next act is to queue the incident. */
  ghost predicate ToBeQueued(s: State, fp: Key) {
    && fp.minion in s.tasks && s.tasks[fp.minion].post.NoPost? && s.tasks[fp.minion].resolved == []
    && s.tasks[fp.minion].firing != [] && s.tasks[fp.minion].firing[0].fingerprint == fp
  }

  /** The queue will admit it. */
  ghost predicate WillAdmit(s: State, f: Firing, now: real) {
    && 1 <= s.pool.queue.maxPending
    && Q.Enqueue(s.pool.queue, f.fingerprint, f.anomaly.severity, Work(f, now)).1.status.Enqueued?
  }

  lemma QueueStep(c: Settings, s: State, fp: Key, now: real) returns (s': State, k: nat)
    requires Coherent(s) && ToBeQueued(s, fp) && WillAdmit(s, s.tasks[fp.minion].firing[0], now)
    ensures Enabled(c, s, EnqueueNext(fp.minion, now)) && s' == Apply(c, s, EnqueueNext(fp.minion, now))
    ensures s'.rows == s.rows && s'.alerts == s.alerts && s'.pool.workers == s.pool.workers
    ensures k < |s'.pool.queue.pending| && s'.pool.queue.pending[k].fingerprint == fp
    ensures s'.pool.queue.pending[k].payload == Work(s.tasks[fp.minion].firing[0], now)
  {
    var f := s.tasks[fp.minion].firing[0];
    k := Q.EnqueuedIsPending(s.pool.queue, fp, f.anomaly.severity, Work(f, now));
    s' := EnqueueOne(s, fp.minion, now);
  }

  lemma QueueKeepsOrphans(s: State, s': State)
    requires NoOrphans(s) && s'.rows == s.rows && s'.alerts == s.alerts && s'.pool.workers == s.pool.workers
    ensures NoOrphans(s')
  {
    forall w: nat, id: Labels | AboutToMark(s.pool, w, id) ensures AboutToMark(s'.pool, w, id) {
    }
  }

  /**
   A release before the enqueueing. If the queue admits what the task read, then
   whatever else is queued an idle worker can get to the job, and that leaves an
   orphan exactly when what was read does not cover the alert.
   */
  lemma ReleaseBeforeEnqueue(c: Settings, s: State, w: nat, fp: Key, v: nat, now: real)
    returns (k: nat, events: seq<Event>)
    requires Safe(s) && 1 <= c.maxPending && 0.0 <= c.maxJobAge
    requires AboutToRelease(s, w, fp) && ToBeQueued(s, fp) && IdleAt(Apply(c, s, LetGo(w)), v)
    requires WillAdmit(Apply(c, s, LetGo(w)), s.tasks[fp.minion].firing[0], now)
    requires S.IsActionable(s.rows, fp, s.tasks[fp.minion].firing[0].startsAt)
    ensures var firing, released := s.tasks[fp.minion].firing[0], Apply(c, s, LetGo(w));
            var changed := firing.previous.Some? && firing.previous.value.labels != FiringLabels(firing);
            && events == [EnqueueNext(fp.minion, now)] + (Drain(v, k) + Investigation(v, changed, now))
            && IsRun(c, released, events)
            && (NoOrphans(After(c, released, events)) <==> FiringCovers(s.alerts, firing))
  {
    var released := Apply(c, s, LetGo(w));
    ReleaseKeeps(c, s, w, fp);
    SafeHasNoOrphans(s);
    assert NoOrphans(released);
    StepCoherent(c, s, LetGo(w));
    var queued;
    queued, k := QueueStep(c, released, fp, now);
    StepCoherent(c, released, EnqueueNext(fp.minion, now));
    Single(c, released, EnqueueNext(fp.minion, now), queued);
    QueueKeepsOrphans(released, queued);
    JobIsWaiting(c, queued, k, fp, now);
    WaitingJobOrphans(c, queued, v, k, now);
    var rest := Drain(v, k) + Investigation(v, LabelsChanged(queued.pool.queue.pending[k]), now);
    events := [EnqueueNext(fp.minion, now)] + rest;
    Follows(c, released, [EnqueueNext(fp.minion, now)], rest);
  }

  lemma JobIsWaiting(c: Settings, s: State, k: nat, fp: Key, now: real)
    requires Coherent(s) && 0.0 <= c.maxJobAge && k < |s.pool.queue.pending|
    requires s.pool.queue.pending[k].fingerprint == fp && s.pool.queue.pending[k].payload.detectedAt == now
    requires S.IsActionable(s.rows, fp, s.pool.queue.pending[k].payload.firing.startsAt)
    ensures Waiting(c, s, k, now)
  {
    assert s.pool.queue.pending[k] in s.pool.queue.pending && JobLive(s.rows, s.pool.queue.pending[k]);
  }
}
