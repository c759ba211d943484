/**
 No orphan alerts: Alertmanager never holds an alert that the agent will not
 resolve, under the hypotheses that `Sound` states, event by event.
 */
module OrphanAlerts {
  import opened Domain
  import opened Protocol
  import opened Coherence
  import Q = QueueModel
  import P = WorkerPool
  import S = StoreModel

  function LabelsIn(payload: Option<Payload>): Option<Labels> {
    if payload.Some? then Some(payload.value.labels) else None
  }

  function StoredLabels(rows: S.Rows, fp: Key): Option<Labels> {
    if fp in rows then LabelsIn(rows[fp].payload) else None
  }

  /** Every alert of the incident is the one that `known` names. */
  ghost predicate Covers(alerts: set<Labels>, known: Option<Labels>, fp: Key) {
    forall id :: id in alerts && id.key == fp ==> known == Some(id)
  }

  /** Every alert of the incident is the one that a job for `f` would resolve, or the one it would deliver. */
  ghost predicate FiringCovers(alerts: set<Labels>, f: Firing) {
    forall id :: id in alerts && id.key == f.fingerprint ==> LabelsIn(f.previous) == Some(id) || id == FiringLabels(f)
  }

  ghost predicate StoredAlready(s: State, id: Labels) {
    StoredLabels(s.rows, id.key) == Some(id)
  }

  /** If the worker's delivery was answered with success, it left no alert, or the one that is stored anyway. */
  ghost predicate NothingToMark(s: State, w: nat) {
    At(s, w, P.DeliveryReplied(true)) ==>
      NewLabels(ItemOf(s, w)) !in s.alerts || StoredAlready(s, NewLabels(ItemOf(s, w)))
  }

  ghost predicate NothingUnmarked(s: State) {
    forall w: nat :: NothingToMark(s, w)
  }

  /** A late alert that the agent will deal with like any other: its owner and whoever acts on the incident know it. */
  ghost predicate Accounted(s: State, id: Labels) {
    && Owned(s.rows, s.pool, id)
    && JobsCover({id}, s.pool)
    && (forall m :: m in s.tasks ==>
          && TaskCovers({id}, s.pool.queue.inFlight, s.tasks[m])
          && (s.tasks[m].post.Replied? && s.tasks[m].post.ok ==> s.tasks[m].post.fp != id.key))
  }

  /**
   Hypotheses, all about what Alertmanager holds at the moment of the event. A
   firing request that took effect is reported as a success, unless its alert is
   the stored one. A resolution that is reported as a success took effect, unless
   there was nothing to resolve. No worker is stopped, and the process is not
   restarted, before the acknowledgement of an alert that is there and not stored.
   A request whose sender no longer waits for it arrives only if its alert is
   accounted for. When a job is released while its minion's poll task still has
   to cancel or enqueue the incident, what the task has read covers the alert
   that is there.
   */
  ghost predicate Sound(s: State, e: Event) {
    match e
    case ServeDelivery(w, effect, report) =>
      At(s, w, P.Delivering) ==> (effect ==> report) || StoredAlready(s, NewLabels(ItemOf(s, w)))
    case ServeTransition(w, effect, report) =>
      At(s, w, P.Resolving) ==> (report ==> effect) || PreviousGone(s, ItemOf(s, w))
    case ServeResolution(minion, effect, report) =>
      minion in s.tasks && s.tasks[minion].post.Sent? ==>
        (report ==> effect) || s.tasks[minion].post.labels !in s.alerts
    case Stop(w, _) => NothingToMark(s, w)
    case Restart => NothingUnmarked(s)
    case Arrive(id) => id in s.alerts || Accounted(s, id)
    case LetGo(w) => P.Enabled(s.pool, P.LetGo(w)) ==> UnreadCovers(s, s.pool.workers[w].item.fingerprint)
    case _ => true
  }

  /** What the job would have resolved is not there. */
  predicate PreviousGone(s: State, item: Q.Item) {
    var previous := item.payload.firing.previous;
    previous.Some? ==> previous.value.labels !in s.alerts
  }

  /** What the poll tasks still have to do about `fp` accounts for every alert it has. */
  ghost predicate UnreadCovers(s: State, fp: Key) {
    forall minion :: minion in s.tasks ==>
      && (forall r :: r in s.tasks[minion].resolved && r.fingerprint == fp ==>
            Covers(s.alerts, LabelsIn(r.payload), fp))
      && (forall f :: f in s.tasks[minion].firing && f.fingerprint == fp ==> FiringCovers(s.alerts, f))
  }

  ghost predicate SoundRun(c: Settings, s: State, events: seq<Event>)
    decreases |events|
  {
    events == [] ||
    (Allowed(c, s, events[0]) && Sound(s, events[0]) && SoundRun(c, Apply(c, s, events[0]), events[1..]))
  }

  /** Every job that has not been acknowledged accounts for the alert its incident has. */
  ghost predicate JobsCover(alerts: set<Labels>, pool: P.Pool) {
    && (forall x :: x in pool.queue.pending ==> FiringCovers(alerts, x.payload.firing))
    && (forall w :: 0 <= w < |pool.workers| && pool.workers[w].Running? ==>
          FiringCovers(alerts, pool.workers[w].item.payload.firing))
  }

  ghost predicate TaskCovers(alerts: set<Labels>, inFlight: set<Key>, t: Task) {
    && (forall r :: r in t.resolved && r.fingerprint !in inFlight ==>
          Covers(alerts, LabelsIn(r.payload), r.fingerprint))
    && (forall f :: f in t.firing && f.fingerprint !in inFlight ==> FiringCovers(alerts, f))
    && (t.post.Sent? ==> Covers(alerts, Some(t.post.labels), t.post.fp))
  }

  ghost predicate TasksCover(s: State) {
    forall minion :: minion in s.tasks ==> TaskCovers(s.alerts, s.pool.queue.inFlight, s.tasks[minion])
  }

  /** A worker that is about to acknowledge `id`. */
  ghost predicate AboutToMark(pool: P.Pool, w: nat, id: Labels) {
    && P.Holds(pool, w, id.key) && pool.workers[w].Running?
    && pool.workers[w].stage == P.DeliveryReplied(true) && NewLabels(pool.workers[w].item) == id
  }

  /** Once it has nothing left to resolve, a running job's incident can only have the alert that it delivers. */
  ghost predicate Agrees(phase: P.Phase, id: Labels) {
    phase.Running? ==>
      (phase.stage.Delivering? || phase.stage.DeliveryReplied? || phase.stage == P.ResolveReplied(true) ==>
         id == NewLabels(phase.item))
  }

  ghost predicate Owned(rows: S.Rows, pool: P.Pool, id: Labels) {
    && id.key in rows && rows[id.key].active
    && (StoredLabels(rows, id.key) == Some(id) || exists w: nat :: AboutToMark(pool, w, id))
    && (forall w: nat :: P.Holds(pool, w, id.key) ==> Agrees(pool.workers[w], id))
  }

  ghost predicate AlertsOwned(s: State) {
    forall id :: id in s.alerts ==> Owned(s.rows, s.pool, id)
  }

  /** A resolution that succeeded left nothing behind. */
  ghost predicate PostsEffective(s: State) {
    forall minion, id ::
      minion in s.tasks && s.tasks[minion].post.Replied? && s.tasks[minion].post.ok && id in s.alerts ==>
        id.key != s.tasks[minion].post.fp
  }

  ghost predicate Safe(s: State) {
    && Coherent(s)
    && JobsCover(s.alerts, s.pool)
    && TasksCover(s)
    && AlertsOwned(s)
    && PostsEffective(s)
  }

  /** The property itself. */
  ghost predicate NoOrphans(s: State) {
    && (forall id :: id in s.alerts ==>
          && id.key in s.rows && s.rows[id.key].active
          && (StoredLabels(s.rows, id.key) == Some(id) || exists w: nat :: AboutToMark(s.pool, w, id)))
    && (forall id, id' :: id in s.alerts && id' in s.alerts && id.key == id'.key ==> id == id')
  }

  lemma SafeHasNoOrphans(s: State)
    requires Safe(s)
    ensures NoOrphans(s)
  {
    forall id, id' | id in s.alerts && id' in s.alerts && id.key == id'.key ensures id == id' {
      assert Owned(s.rows, s.pool, id) && Owned(s.rows, s.pool, id');
      if exists w: nat :: AboutToMark(s.pool, w, id) {
        var w: nat :| AboutToMark(s.pool, w, id);
        assert Agrees(s.pool.workers[w], id');
      }
    }
  }

  /** Unless a worker is about to acknowledge it, an alert is the one the store holds. */
  lemma StoredUnlessMarking(s: State, id: Labels)
    requires AlertsOwned(s) && P.PoolValid(s.pool) && id in s.alerts
    requires forall w: nat :: P.Holds(s.pool, w, id.key) ==>
               !(s.pool.workers[w].Running? && s.pool.workers[w].stage == P.DeliveryReplied(true))
    ensures StoredLabels(s.rows, id.key) == Some(id)
  {
    assert Owned(s.rows, s.pool, id);
  }

  // A step of the pool

  /** A worker that advances to a stage that adds no claim about alerts. */
  lemma PhaseChangeOwned(rows: S.Rows, pool: P.Pool, pool': P.Pool, w: nat, id: Labels)
    requires P.PoolValid(pool) && Owned(rows, pool, id) && w < |pool.workers| == |pool'.workers|
    requires forall v: nat :: v < |pool.workers| && v != w ==> pool'.workers[v] == pool.workers[v]
    requires P.Holds(pool', w, id.key) ==> Agrees(pool'.workers[w], id)
    requires P.Holds(pool, w, id.key) ==>
               pool.workers[w].Running? && pool.workers[w].stage == P.DeliveryReplied(true) ==>
                 StoredLabels(rows, id.key) == Some(id)
    ensures Owned(rows, pool', id)
  {
    if StoredLabels(rows, id.key) != Some(id) {
      var v: nat :| AboutToMark(pool, v, id);
      assert AboutToMark(pool', v, id);
    }
    forall v: nat | P.Holds(pool', v, id.key) ensures Agrees(pool'.workers[v], id) {
      if v != w { assert P.Holds(pool, v, id.key); }
    }
  }

  lemma PoolStepKeepsTasksCovering(s: State, step: P.Step)
    requires Coherent(s) && TasksCover(s) && P.Enabled(s.pool, step) && !step.Offer? && !step.Withdraw?
    requires step.LetGo? ==> UnreadCovers(s, s.pool.workers[step.w].item.fingerprint)
    ensures TasksCover(PoolStep(s, step))
  {
    var s' := PoolStep(s, step);
    forall m | m in s'.tasks ensures TaskCovers(s'.alerts, s'.pool.queue.inFlight, s'.tasks[m]) {
      assert TaskCovers(s.alerts, s.pool.queue.inFlight, s.tasks[m]);
    }
  }

  lemma PoolStepKeepsJobsCovering(s: State, step: P.Step)
    requires Coherent(s) && JobsCover(s.alerts, s.pool) && P.Enabled(s.pool, step) && !step.Offer? && !step.Withdraw?
    ensures JobsCover(s.alerts, PoolStep(s, step).pool)
  {
    if step.Take? {
      Q.PopValid(s.pool.queue);
      assert s.pool.queue.pending[0] in s.pool.queue.pending;
    }
  }

  /** The row of an active incident keeps its payload through a reconcile. */
  lemma ReconcileKeepsPayload(rows: S.Rows, minion: string, cycle: seq<Anomaly>, now: real, fp: Key)
    requires RowsKeyed(rows) && fp in rows && rows[fp].active
    ensures var rows' := S.Reconcile(rows, minion, OfMinion(cycle, minion), now);
            fp in rows' && rows'[fp].active && StoredLabels(rows', fp) == StoredLabels(rows, fp)
  {
    S.ReconcileAt(rows, minion, OfMinion(cycle, minion), now, fp);
    S.ChosenIsOfMinion(cycle, minion, fp);
  }

  /** The new rows keep every active row but those in `gone` active, and keep its labels. */
  ghost predicate KeepsLabels(rows: S.Rows, rows': S.Rows, gone: set<Key>) {
    forall fp :: fp in rows && rows[fp].active && fp !in gone ==>
      fp in rows' && rows'[fp].active && StoredLabels(rows', fp) == StoredLabels(rows, fp)
  }

  /** Alerts belong to active rows, so a change that keeps those rows' labels keeps the rest. */
  lemma RowsUpdateSafe(s: State, s': State, gone: set<Key>)
    requires Safe(s) && s'.pool == s.pool && s'.tasks == s.tasks && s'.alerts == s.alerts && s'.strays == s.strays
    requires Coherent(s') && KeepsLabels(s.rows, s'.rows, gone)
    requires forall id :: id in s.alerts ==> id.key !in gone
    ensures Safe(s')
  {
    forall id | id in s'.alerts ensures Owned(s'.rows, s'.pool, id) {
      assert Owned(s.rows, s.pool, id);
    }
  }

  /** What a reconcile lists covers the alert of every incident that no worker holds. */
  lemma NewTaskCovers(c: Settings, s: State, e: Event)
    requires Safe(s) && e.Reconcile? && Allowed(c, s, e)
    ensures TaskCovers(s.alerts, s.pool.queue.inFlight, Begin(c, s, e).tasks[e.minion])
  {
    var detected := OfMinion(e.cycle, e.minion);
    var task := Begin(c, s, e).tasks[e.minion];
    var idle := set id | id in s.alerts && id.key !in s.pool.queue.inFlight;
    forall f, id | f in task.firing && id in idle && id.key == f.fingerprint
      ensures LabelsIn(f.previous) == Some(id)
    {
      S.SelectionWellFormed(detected);
      var selection := S.PreferMoreSevere(detected);
      S.FiringListContents(c.store, s.rows, e.minion, selection.order, selection.chosen, e.now);
      S.ChosenIsOfMinion(e.cycle, e.minion, f.fingerprint);
      IdleAlertIsStored(s, id);
    }
    forall r, id | r in task.resolved && id in idle && id.key == r.fingerprint
      ensures LabelsIn(r.payload) == Some(id)
    {
      assert r in S.ResolvedSet(c.store, s.rows, e.minion, S.PreferMoreSevere(detected).chosen);
      IdleAlertIsStored(s, id);
    }
  }

  lemma ReconciledRowsSafe(s: State, minion: string, cycle: seq<Anomaly>, now: real)
    requires Safe(s)
    ensures Safe(s.(rows := S.Reconcile(s.rows, minion, OfMinion(cycle, minion), now)))
  {
    var mid := s.(rows := S.Reconcile(s.rows, minion, OfMinion(cycle, minion), now));
    ReconcileKeepsLive(s.rows, minion, cycle, now);
    RowsUpdateCoherent(s, mid);
    forall fp | fp in s.rows && s.rows[fp].active
      ensures fp in mid.rows && mid.rows[fp].active && StoredLabels(mid.rows, fp) == StoredLabels(s.rows, fp)
    {
      ReconcileKeepsPayload(s.rows, minion, cycle, now, fp);
    }
    RowsUpdateSafe(s, mid, {});
  }

  lemma BeginSafe(c: Settings, s: State, e: Event)
    requires Safe(s) && e.Reconcile? && Allowed(c, s, e)
    ensures Safe(Begin(c, s, e))
  {
    var s' := Begin(c, s, e);
    var mid := s.(rows := s'.rows);
    BeginCoherent(c, s, e);
    ReconciledRowsSafe(s, e.minion, e.cycle, e.now);
    NewTaskCovers(c, s, e);
    forall m | m in s'.tasks ensures TaskCovers(s'.alerts, s'.pool.queue.inFlight, s'.tasks[m]) {
      if m != e.minion { assert TaskCovers(mid.alerts, mid.pool.queue.inFlight, mid.tasks[m]); }
    }
  }

  /** An incident that no worker holds is not about to be acknowledged. */
  lemma IdleAlertIsStored(s: State, id: Labels)
    requires Safe(s) && id in s.alerts && id.key !in s.pool.queue.inFlight
    ensures StoredLabels(s.rows, id.key) == Some(id)
  {
    assert forall w: nat :: P.Holds(s.pool, w, id.key) ==> false;
    StoredUnlessMarking(s, id);
  }

  lemma SameWorkersOwned(rows: S.Rows, pool: P.Pool, pool': P.Pool, id: Labels)
    requires Owned(rows, pool, id) && pool'.workers == pool.workers
    ensures Owned(rows, pool', id)
  {
    if w: nat :| AboutToMark(pool, w, id) {
      assert AboutToMark(pool', w, id);
    }
    forall w: nat | P.Holds(pool', w, id.key) ensures Agrees(pool'.workers[w], id) {
      assert P.Holds(pool, w, id.key);
    }
  }

  lemma WithdrawSafe(s: State, minion: string)
    requires Safe(s) && minion in s.tasks && s.tasks[minion].resolved != [] && s.tasks[minion].post.NoPost?
    ensures var task := s.tasks[minion];
            var s' := SetTask(PoolStep(s, P.Withdraw(task.resolved[0].fingerprint)), minion,
                              Task(task.resolved[1..], NoPost, task.firing));
            Coherent(s') ==> Safe(s')
  {
    var task := s.tasks[minion];
    var fp := task.resolved[0].fingerprint;
    var s' := SetTask(PoolStep(s, P.Withdraw(fp)), minion, Task(task.resolved[1..], NoPost, task.firing));
    WithdrawnIsAbsent(s.pool, fp);
    forall m | m in s'.tasks ensures TaskCovers(s'.alerts, s'.pool.queue.inFlight, s'.tasks[m]) {
      assert TaskCovers(s.alerts, s.pool.queue.inFlight, s.tasks[m]);
    }
    forall id | id in s'.alerts ensures Owned(s'.rows, s'.pool, id) {
      SameWorkersOwned(s.rows, s.pool, s'.pool, id);
    }
  }

  /** Sending the resolution of an incident that no worker holds. */
  lemma SendSafe(s: State, minion: string, record: S.Record)
    requires Safe(s) && minion in s.tasks && s.tasks[minion].post.NoPost? && record.payload.Some?
    requires Covers(s.alerts, LabelsIn(record.payload), record.fingerprint)
    ensures var post := Sent(record.fingerprint, record.payload.value.labels);
            var s' := SetTask(s, minion, s.tasks[minion].(post := post));
            Coherent(s') ==> Safe(s')
  {
    var post := Sent(record.fingerprint, record.payload.value.labels);
    var s' := SetTask(s, minion, s.tasks[minion].(post := post));
    forall m | m in s'.tasks ensures TaskCovers(s'.alerts, s'.pool.queue.inFlight, s'.tasks[m]) {
      assert TaskCovers(s.alerts, s.pool.queue.inFlight, s.tasks[m]);
    }
  }

  /** Resolving an incident that has no alert. */
  lemma ResolveSilentSafe(s: State, s': State, fp: Key, now: real)
    requires Safe(s) && Covers(s.alerts, None, fp)
    requires s' == s.(rows := S.MarkResolved(s.rows, fp, now)) && Coherent(s')
    ensures Safe(s')
  {
    RowsUpdateSafe(s, s', {fp});
  }

  /** The state once the incident's pending job is withdrawn and the record taken off the list. */
  function Withdrawn(s: State, minion: string): State
    requires minion in s.tasks && s.tasks[minion].resolved != []
  {
    var task := s.tasks[minion];
    var s' := PoolStep(s, P.Withdraw(task.resolved[0].fingerprint));
    SetTask(s', minion, Task(task.resolved[1..], NoPost, task.firing))
  }

  lemma CancelCases(s: State, minion: string, now: real)
    requires P.PoolValid(s.pool) && minion in s.tasks && s.tasks[minion].resolved != []
    ensures var record, mid, s' := s.tasks[minion].resolved[0], Withdrawn(s, minion), CancelOne(s, minion, now);
            if record.fingerprint in s.pool.queue.inFlight then
              s' == mid
            else
              match record.payload
              case None => s' == mid.(rows := S.MarkResolved(mid.rows, record.fingerprint, now))
              case Some(payload) =>
                s' == SetTask(mid, minion, mid.tasks[minion].(post := Sent(record.fingerprint, payload.labels)))
  {
    WithdrawnIsAbsent(s.pool, s.tasks[minion].resolved[0].fingerprint);
  }

  lemma CancelOneSafe(s: State, minion: string, now: real)
    requires Safe(s) && minion in s.tasks && s.tasks[minion].resolved != [] && s.tasks[minion].post.NoPost?
    ensures Safe(CancelOne(s, minion, now))
  {
    var task := s.tasks[minion];
    var record, mid := task.resolved[0], Withdrawn(s, minion);
    CancelOneCoherent(s, minion, now);
    WithdrawCoherent(s, minion);
    WithdrawSafe(s, minion);
    CancelCases(s, minion, now);
    assert record in task.resolved && TaskCovers(s.alerts, s.pool.queue.inFlight, task);
    if record.fingerprint in s.pool.queue.inFlight {
    } else if record.payload.None? {
      ResolveSilentSafe(mid, CancelOne(s, minion, now), record.fingerprint, now);
    } else {
      SendSafe(mid, minion, record);
    }
  }

  lemma ServeResolutionSafe(s: State, minion: string, effect: bool, report: bool)
    requires Safe(s) && minion in s.tasks && s.tasks[minion].post.Sent?
    requires (report ==> effect) || s.tasks[minion].post.labels !in s.alerts
    ensures Safe(AnswerResolution(s, minion, effect, report))
  {
    var s' := AnswerResolution(s, minion, effect, report);
    ServeResolutionCoherent(s, minion, effect, report);
    forall m | m in s'.tasks ensures TaskCovers(s'.alerts, s'.pool.queue.inFlight, s'.tasks[m]) {
      assert TaskCovers(s.alerts, s.pool.queue.inFlight, s.tasks[m]);
    }
    forall m, id | m in s'.tasks && s'.tasks[m].post.Replied? && s'.tasks[m].post.ok && id in s'.alerts
      ensures id.key != s'.tasks[m].post.fp
    {
      if m == minion { assert TaskCovers(s.alerts, s.pool.queue.inFlight, s.tasks[minion]); }
    }
  }

  lemma ClearPostSafe(s: State, minion: string)
    requires Safe(s) && minion in s.tasks && s.tasks[minion].post.Replied?
    ensures Safe(SetTask(s, minion, s.tasks[minion].(post := NoPost)))
  {
    var mid := SetTask(s, minion, s.tasks[minion].(post := NoPost));
    ClearPostCoherent(s, minion);
    forall m | m in mid.tasks ensures TaskCovers(mid.alerts, mid.pool.queue.inFlight, mid.tasks[m]) {
      assert TaskCovers(s.alerts, s.pool.queue.inFlight, s.tasks[m]);
    }
  }

  lemma FinishResolutionSafe(s: State, minion: string, now: real)
    requires Safe(s) && minion in s.tasks && s.tasks[minion].post.Replied?
    ensures Safe(ConcludeResolution(s, minion, now))
  {
    var post := s.tasks[minion].post;
    var mid := SetTask(s, minion, s.tasks[minion].(post := NoPost));
    ClearPostSafe(s, minion);
    if post.ok {
      FinishResolutionCoherent(s, minion, now);
      RowsUpdateSafe(mid, ConcludeResolution(s, minion, now), {post.fp});
    }
  }

  lemma EnqueueOneSafe(c: Settings, s: State, minion: string, now: real)
    requires Safe(s) && Enabled(c, s, EnqueueNext(minion, now))
    ensures Safe(EnqueueOne(s, minion, now))
  {
    var s' := EnqueueOne(s, minion, now);
    var firing := s.tasks[minion].firing[0];
    var work := Work(firing, now);
    EnqueueOneCoherent(c, s, minion, now);
    assert firing in s.tasks[minion].firing;
    assert TaskCovers(s.alerts, s.pool.queue.inFlight, s.tasks[minion]);
    Q.EnqueueItems(s.pool.queue, firing.fingerprint, firing.anomaly.severity, work);
    forall x | x in s'.pool.queue.pending ensures FiringCovers(s'.alerts, x.payload.firing) {
      if x !in s.pool.queue.pending {
        assert x.fingerprint == firing.fingerprint && x.payload == work;
      }
    }
    forall m | m in s'.tasks ensures TaskCovers(s'.alerts, s'.pool.queue.inFlight, s'.tasks[m]) {
      assert TaskCovers(s.alerts, s.pool.queue.inFlight, s.tasks[m]);
    }
    forall id | id in s'.alerts ensures Owned(s'.rows, s'.pool, id) {
      SameWorkersOwned(s.rows, s.pool, s'.pool, id);
    }
  }

  // The worker's events

  /** The holder of an incident in flight is unique, so its stage decides what its alerts may be. */
  lemma OnlyHolder(s: State, w: nat, v: nat, fp: Key)
    requires P.PoolValid(s.pool) && P.Holds(s.pool, w, fp) && P.Holds(s.pool, v, fp)
    ensures v == w
  {
  }

  /** Before its delivery is answered, the alert of a job's incident is the stored one, and the job accounts for it. */
  lemma AlertOfRunningJob(s: State, w: nat, id: Labels)
    requires Safe(s) && id in s.alerts && w < |s.pool.workers| && s.pool.workers[w].Running?
    requires id.key == ItemOf(s, w).fingerprint && !At(s, w, P.DeliveryReplied(true))
    ensures StoredLabels(s.rows, id.key) == Some(id)
    ensures LabelsIn(ItemOf(s, w).payload.firing.previous) == Some(id) || id == NewLabels(ItemOf(s, w))
    ensures Agrees(s.pool.workers[w], id)
  {
    assert P.Holds(s.pool, w, id.key);
    StoredUnlessMarking(s, id);
    assert Owned(s.rows, s.pool, id);
    assert JobLive(s.rows, ItemOf(s, w));
    assert FiringCovers(s.alerts, ItemOf(s, w).payload.firing);
  }

  /** A job's new labels are those of its own incident. */
  lemma NewLabelsKey(s: State, w: nat)
    requires Coherent(s) && w < |s.pool.workers| && s.pool.workers[w].Running?
    ensures NewLabels(ItemOf(s, w)).key == ItemOf(s, w).fingerprint
    ensures ItemOf(s, w).fingerprint in s.pool.queue.inFlight
  {
    assert P.Holds(s.pool, w, ItemOf(s, w).fingerprint);
    assert JobLive(s.rows, ItemOf(s, w));
  }

  /**
   A pool step that leaves rows, tasks and alerts alone is safe when every alert
   of the stepping worker's incident is stored and agrees with its new phase.
   */
  lemma PoolStepSafe(s: State, step: P.Step, w: nat)
    requires Safe(s) && P.Enabled(s.pool, step) && !step.Offer? && !step.Withdraw? && !step.Shut?
    requires w == step.w
    requires step.LetGo? ==> UnreadCovers(s, s.pool.workers[step.w].item.fingerprint)
    requires forall id :: id in s.alerts && P.Holds(s.pool, w, id.key) ==>
               StoredLabels(s.rows, id.key) == Some(id) && Agrees(P.Apply(s.pool, step).workers[w], id)
    ensures Safe(PoolStep(s, step))
  {
    var s' := PoolStep(s, step);
    PoolStepCoherent(s, step);
    PoolStepKeepsTasksCovering(s, step);
    PoolStepKeepsJobsCovering(s, step);
    forall id | id in s'.alerts ensures Owned(s'.rows, s'.pool, id) {
      assert Owned(s.rows, s.pool, id);
      PhaseChangeOwned(s.rows, s.pool, s'.pool, w, id);
    }
  }

  lemma StoppingSafe(s: State, step: P.Step, w: nat)
    requires step == P.Finish(w, true) || step == P.Finish(w, false) || step == P.Interrupt(w)
    requires Safe(s) && P.Enabled(s.pool, step) && NothingToMark(s, w)
    ensures Safe(PoolStep(s, step))
  {
    forall id | id in s.alerts && P.Holds(s.pool, w, id.key)
      ensures StoredLabels(s.rows, id.key) == Some(id) && Agrees(P.Apply(s.pool, step).workers[w], id)
    {
      if At(s, w, P.DeliveryReplied(true)) {
        assert Owned(s.rows, s.pool, id);
      } else {
        AlertOfRunningJob(s, w, id);
      }
    }
    PoolStepSafe(s, step, w);
  }

  lemma ResumeSafe(s: State, w: nat, stage: P.Stage)
    requires Safe(s) && P.Enabled(s.pool, P.Advance(w, stage)) && !At(s, w, P.DeliveryReplied(true))
    requires stage == P.Investigating || stage == P.Resolving || (stage == P.Delivering && ReadyToDeliver(s, w))
    ensures Safe(Resume(s, w, stage))
  {
    forall id | id in s.alerts && P.Holds(s.pool, w, id.key)
      ensures StoredLabels(s.rows, id.key) == Some(id)
      ensures Agrees(P.Apply(s.pool, P.Advance(w, stage)).workers[w], id)
    {
      AlertOfRunningJob(s, w, id);
    }
    PoolStepSafe(s, P.Advance(w, stage), w);
  }

  /** The job replaces nothing, or what it replaces has been resolved. */
  predicate ReadyToDeliver(s: State, w: nat)
    requires w < |s.pool.workers| && s.pool.workers[w].Running?
  {
    !LabelsChanged(ItemOf(s, w)) || At(s, w, P.ResolveReplied(true))
  }

  lemma EffectiveTransitionSafe(c: Settings, s: State, w: nat, effect: bool, report: bool)
    requires Safe(s) && Enabled(c, s, ServeTransition(w, effect, report)) && (report ==> effect)
    ensures Safe(Apply(c, s, ServeTransition(w, effect, report)))
  {
    var s' := Apply(c, s, ServeTransition(w, effect, report));
    var mid := s.(alerts := s'.alerts);
    forall id | id in s'.alerts && P.Holds(s.pool, w, id.key)
      ensures StoredLabels(s.rows, id.key) == Some(id)
      ensures Agrees(P.Apply(s.pool, P.Advance(w, P.ResolveReplied(report))).workers[w], id)
    {
      AlertOfRunningJob(s, w, id);
    }
    assert Safe(mid);
    PoolStepSafe(mid, P.Advance(w, P.ResolveReplied(report)), w);
    assert s' == PoolStep(mid, P.Advance(w, P.ResolveReplied(report)));
  }

  /** With nothing to resolve, a transition that did nothing is as good as one that took effect. */
  lemma ServeTransitionSafe(c: Settings, s: State, w: nat, effect: bool, report: bool)
    requires Safe(s) && Enabled(c, s, ServeTransition(w, effect, report))
    requires Sound(s, ServeTransition(w, effect, report))
    ensures Safe(Apply(c, s, ServeTransition(w, effect, report)))
  {
    if report ==> effect {
      EffectiveTransitionSafe(c, s, w, effect, report);
    } else {
      EffectiveTransitionSafe(c, s, w, true, report);
      var previous := ItemOf(s, w).payload.firing.previous;
      assert previous.Some? ==> s.alerts - {previous.value.labels} == s.alerts;
    }
  }

  /** Only the worker itself refers to the incident in flight, so no other job has to account for its new alert. */
  lemma DeliveredAlertCoveredByJobs(s: State, w: nat)
    requires Safe(s) && w < |s.pool.workers| && s.pool.workers[w].Running?
    ensures JobsCover(s.alerts + {NewLabels(ItemOf(s, w))}, s.pool)
  {
    var id := NewLabels(ItemOf(s, w));
    NewLabelsKey(s, w);
    assert P.Holds(s.pool, w, id.key);
    forall x | x in s.pool.queue.pending ensures FiringCovers(s.alerts + {id}, x.payload.firing) {
      assert JobLive(s.rows, x) && FiringCovers(s.alerts, x.payload.firing);
    }
    forall v: nat | v < |s.pool.workers| && s.pool.workers[v].Running?
      ensures FiringCovers(s.alerts + {id}, s.pool.workers[v].item.payload.firing)
    {
      assert P.Holds(s.pool, v, ItemOf(s, v).fingerprint) && JobLive(s.rows, ItemOf(s, v));
      assert FiringCovers(s.alerts, ItemOf(s, v).payload.firing);
    }
  }

  /** And no list of a poll task has to. */
  lemma DeliveredAlertCovered(s: State, w: nat)
    requires Safe(s) && w < |s.pool.workers| && s.pool.workers[w].Running?
    ensures var s' := s.(alerts := s.alerts + {NewLabels(ItemOf(s, w))});
            JobsCover(s'.alerts, s'.pool) && TasksCover(s')
  {
    var id := NewLabels(ItemOf(s, w));
    var s' := s.(alerts := s.alerts + {id});
    NewLabelsKey(s, w);
    assert P.Holds(s.pool, w, id.key);
    DeliveredAlertCoveredByJobs(s, w);
    forall m | m in s'.tasks ensures TaskCovers(s'.alerts, s'.pool.queue.inFlight, s'.tasks[m]) {
      assert TaskCovers(s.alerts, s.pool.queue.inFlight, s.tasks[m]) && TaskLive(s.rows, s.pool, m, s.tasks[m]);
    }
  }

  lemma DeliveredAlertOwned(s: State, w: nat, report: bool)
    requires Safe(s) && At(s, w, P.DeliveryReplied(report))
    requires report || StoredAlready(s, NewLabels(ItemOf(s, w)))
    ensures Owned(s.rows, s.pool, NewLabels(ItemOf(s, w)))
  {
    var id := NewLabels(ItemOf(s, w));
    NewLabelsKey(s, w);
    assert P.Holds(s.pool, w, id.key) && (report ==> AboutToMark(s.pool, w, id));
    assert JobLive(s.rows, ItemOf(s, w));
    forall v: nat | P.Holds(s.pool, v, id.key) ensures Agrees(s.pool.workers[v], id) {
      OnlyHolder(s, w, v, id.key);
    }
  }

  /** No resolution is under way for an incident that a worker holds. */
  lemma NoPostForRunning(s: State, w: nat, m: string)
    requires Coherent(s) && w < |s.pool.workers| && s.pool.workers[w].Running?
    requires m in s.tasks && s.tasks[m].post.Replied?
    ensures s.tasks[m].post.fp != NewLabels(ItemOf(s, w)).key
  {
    NewLabelsKey(s, w);
    assert P.Holds(s.pool, w, NewLabels(ItemOf(s, w)).key) && TaskLive(s.rows, s.pool, m, s.tasks[m]);
  }

  /** The alert a worker has just delivered is stored, or its own to acknowledge. */
  lemma DeliveredAlertSafe(s: State, w: nat, report: bool)
    requires Safe(s) && At(s, w, P.DeliveryReplied(report))
    requires report || StoredAlready(s, NewLabels(ItemOf(s, w)))
    ensures Safe(s.(alerts := s.alerts + {NewLabels(ItemOf(s, w))}))
  {
    DeliveredAlertOwned(s, w, report);
    DeliveredAlertCovered(s, w);
    forall m | m in s.tasks && s.tasks[m].post.Replied?
      ensures s.tasks[m].post.fp != NewLabels(ItemOf(s, w)).key
    {
      NoPostForRunning(s, w, m);
    }
  }

  /** The reply to a delivery, before what the delivery did. */
  lemma ReplySafe(s: State, w: nat, report: bool)
    requires Safe(s) && At(s, w, P.Delivering)
    ensures Safe(Resume(s, w, P.DeliveryReplied(report)))
  {
    var step := P.Advance(w, P.DeliveryReplied(report));
    forall id | id in s.alerts && P.Holds(s.pool, w, id.key)
      ensures StoredLabels(s.rows, id.key) == Some(id) && Agrees(P.Apply(s.pool, step).workers[w], id)
    {
      AlertOfRunningJob(s, w, id);
    }
    PoolStepSafe(s, step, w);
  }

  lemma ServeDeliverySafe(c: Settings, s: State, w: nat, effect: bool, report: bool)
    requires Safe(s) && Enabled(c, s, ServeDelivery(w, effect, report)) && Sound(s, ServeDelivery(w, effect, report))
    ensures Safe(Apply(c, s, ServeDelivery(w, effect, report)))
  {
    ReplySafe(s, w, report);
    if effect { DeliveredAlertSafe(Resume(s, w, P.DeliveryReplied(report)), w, report); }
  }

  lemma LoseDeliverySafe(c: Settings, s: State, w: nat)
    requires Safe(s) && Enabled(c, s, LoseDelivery(w))
    ensures Safe(Apply(c, s, LoseDelivery(w)))
  {
    ReplySafe(s, w, false);
  }

  /** The rows once the worker has acknowledged its delivery. */
  function MarkedRows(s: State, w: nat, now: real): S.Rows
    requires w < |s.pool.workers| && s.pool.workers[w].Running?
  {
    var firing := ItemOf(s, w).payload.firing;
    S.MarkEmitted(s.rows, firing.fingerprint, NewPayload(ItemOf(s, w)), now, Some(firing.startsAt))
  }

  /** It changes the stored labels of its own incident, to the new ones, and nothing of any other row. */
  lemma MarkedRowsAt(s: State, w: nat, now: real)
    requires Coherent(s) && At(s, w, P.DeliveryReplied(true))
    ensures var rows', fp := MarkedRows(s, w, now), ItemOf(s, w).fingerprint;
            && StoredLabels(rows', fp) == Some(NewLabels(ItemOf(s, w)))
            && rows'.Keys == s.rows.Keys && fp in s.rows
            && (forall other :: other in s.rows && other != fp ==> rows'[other] == s.rows[other])
            && (forall other :: other in s.rows ==> rows'[other].active == s.rows[other].active)
            && RowsKeyed(rows') && KeepsLive(s.rows, rows')
  {
    NewLabelsKey(s, w);
    assert JobLive(s.rows, ItemOf(s, w));
    var firing := ItemOf(s, w).payload.firing;
    MarkEmittedKeepsLive(s.rows, firing.fingerprint, NewPayload(ItemOf(s, w)), now, Some(firing.startsAt));
  }

  lemma MarkCoherent(s: State, w: nat, now: real)
    requires Coherent(s) && At(s, w, P.DeliveryReplied(true))
    ensures Coherent(Finish(s, w).(rows := MarkedRows(s, w, now)))
  {
    MarkedRowsAt(s, w, now);
    PoolStepCoherent(s, P.Finish(w, true));
    RowsUpdateCoherent(Finish(s, w), Finish(s, w).(rows := MarkedRows(s, w, now)));
  }

  /** The acknowledgement makes the new labels the stored ones. */
  lemma MarkSafe(s: State, w: nat, now: real)
    requires Safe(s) && At(s, w, P.DeliveryReplied(true))
    ensures Safe(Finish(s, w).(rows := MarkedRows(s, w, now)))
  {
    var s' := Finish(s, w).(rows := MarkedRows(s, w, now));
    MarkCoherent(s, w, now);
    PoolStepKeepsJobsCovering(s, P.Finish(w, true));
    PoolStepKeepsTasksCovering(s, P.Finish(w, true));
    assert AlertsOwned(s') by {
      MarkedRowsAt(s, w, now);
      MarkedAlertsOwned(s, s', w);
    }
  }

  lemma MarkedAlertsOwned(s: State, s': State, w: nat)
    requires Safe(s) && At(s, w, P.DeliveryReplied(true)) && s'.alerts == s.alerts
    requires s'.pool == Finish(s, w).pool
    requires forall fp :: fp in s.rows ==> fp in s'.rows && s'.rows[fp].active == s.rows[fp].active
    requires forall fp :: fp in s.rows && fp != ItemOf(s, w).fingerprint ==> s'.rows[fp] == s.rows[fp]
    requires StoredLabels(s'.rows, ItemOf(s, w).fingerprint) == Some(NewLabels(ItemOf(s, w)))
    ensures AlertsOwned(s')
  {
    var fp := ItemOf(s, w).fingerprint;
    assert P.Holds(s.pool, w, fp);
    forall id | id in s'.alerts ensures Owned(s'.rows, s'.pool, id) {
      assert Owned(s.rows, s.pool, id);
      if id.key == fp {
        assert Agrees(s.pool.workers[w], id);
        forall v: nat | P.Holds(s'.pool, v, fp) ensures Agrees(s'.pool.workers[v], id) {
          assert P.Holds(s.pool, v, fp);
        }
      } else {
        PhaseChangeOwned(s.rows, s.pool, s'.pool, w, id);
      }
    }
  }

  lemma ShutSafe(s: State)
    requires Safe(s)
    ensures Safe(PoolStep(s, P.Shut))
  {
    var s' := PoolStep(s, P.Shut);
    PoolStepCoherent(s, P.Shut);
    PoolStepKeepsTasksCovering(s, P.Shut);
    forall id | id in s'.alerts ensures Owned(s'.rows, s'.pool, id) {
      SameWorkersOwned(s.rows, s.pool, s'.pool, id);
    }
  }

  /** Taking, releasing or leaving: the worker runs nothing on at least one side of the step. */
  lemma IdleSideSafe(s: State, step: P.Step, w: nat)
    requires Safe(s) && P.Enabled(s.pool, step) && (step == P.Take(w) || step == P.LetGo(w) || step == P.Leave(w))
    requires step.LetGo? ==> UnreadCovers(s, s.pool.workers[w].item.fingerprint)
    ensures Safe(PoolStep(s, step))
  {
    forall id | id in s.alerts && P.Holds(s.pool, w, id.key)
      ensures StoredLabels(s.rows, id.key) == Some(id) && Agrees(P.Apply(s.pool, step).workers[w], id)
    {
      forall v: nat | P.Holds(s.pool, v, id.key) ensures v == w { OnlyHolder(s, w, v, id.key); }
      StoredUnlessMarking(s, id);
    }
    PoolStepSafe(s, step, w);
  }

  lemma RestartSafe(c: Settings, s: State)
    requires 1 <= c.maxPending && Safe(s) && Sound(s, Restart)
    ensures Safe(Apply(c, s, Restart))
  {
    var s' := Apply(c, s, Restart);
    StepCoherent(c, s, Restart);
    forall id | id in s'.alerts ensures Owned(s'.rows, s'.pool, id) {
      assert Owned(s.rows, s.pool, id);
      if w: nat :| AboutToMark(s.pool, w, id) {
        assert NothingToMark(s, w);
      }
    }
  }

  /** One more alert that is accounted for. */
  lemma AccountedSafe(s: State, id: Labels)
    requires Safe(s) && Accounted(s, id)
    ensures Safe(s.(alerts := s.alerts + {id}))
  {
    var s' := s.(alerts := s.alerts + {id});
    forall m | m in s'.tasks ensures TaskCovers(s'.alerts, s'.pool.queue.inFlight, s'.tasks[m]) {
      assert TaskCovers(s.alerts, s.pool.queue.inFlight, s.tasks[m]);
      assert TaskCovers({id}, s.pool.queue.inFlight, s.tasks[m]);
    }
  }

  lemma ArriveSafe(c: Settings, s: State, id: Labels)
    requires Safe(s) && Enabled(c, s, Arrive(id)) && Sound(s, Arrive(id))
    ensures Safe(Apply(c, s, Arrive(id)))
  {
    if id in s.alerts {
      assert s.alerts + {id} == s.alerts;
    } else {
      AccountedSafe(s, id);
    }
  }

  predicate IsJobEvent(e: Event) {
    e.Start? || e.Analysed? || e.Transitioned? || e.Stop?
  }

  /** An event of a running job is a step of the pool, but for the request it may leave behind. */
  lemma JobEventIsPoolStep(c: Settings, s: State, e: Event)
    requires Enabled(c, s, e) && IsJobEvent(e)
    ensures Apply(c, s, e) == PoolStep(s, StepOf(c, s, e)).(strays := Apply(c, s, e).strays)
  {
  }

  lemma WorkerStepSafe(c: Settings, s: State, e: Event)
    requires Safe(s) && Allowed(c, s, e) && Sound(s, e) && IsJobEvent(e)
    ensures Safe(Apply(c, s, e))
  {
    var step := StepOf(c, s, e);
    JobEventIsPoolStep(c, s, e);
    if step.Advance? {
      ResumeSafe(s, step.w, step.stage);
    } else {
      StoppingSafe(s, step, step.w);
    }
  }

  predicate IsTaskEvent(e: Event) {
    e.Reconcile? || e.CancelNext? || e.ServeResolution? || e.FinishResolution? || e.EnqueueNext? || e.EndTask?
  }

  lemma TaskStepSafe(c: Settings, s: State, e: Event)
    requires Safe(s) && Allowed(c, s, e) && Sound(s, e) && IsTaskEvent(e)
    ensures Safe(Apply(c, s, e))
  {
    match e
    case Reconcile(_, _, _, _) => BeginSafe(c, s, e);
    case CancelNext(minion, now) => CancelOneSafe(s, minion, now);
    case ServeResolution(minion, effect, report) => ServeResolutionSafe(s, minion, effect, report);
    case FinishResolution(minion, now) => FinishResolutionSafe(s, minion, now);
    case EnqueueNext(minion, now) => EnqueueOneSafe(c, s, minion, now);
    case EndTask(minion) =>
  }

  /** A worker takes, releases or leaves, or the queue is closed. */
  lemma IdleStepSafe(c: Settings, s: State, e: Event)
    requires Safe(s) && Allowed(c, s, e) && Sound(s, e) && (e.Take? || e.LetGo? || e.Leave? || e.Shut?)
    ensures Safe(Apply(c, s, e))
  {
    match e
    case Take(w) => IdleSideSafe(s, P.Take(w), w);
    case LetGo(w) => IdleSideSafe(s, P.LetGo(w), w);
    case Leave(w) => IdleSideSafe(s, P.Leave(w), w);
    case Shut => ShutSafe(s);
  }

  lemma DeliveredSafe(c: Settings, s: State, w: nat, now: real)
    requires Safe(s) && Enabled(c, s, Delivered(w, now))
    ensures Safe(Apply(c, s, Delivered(w, now)))
  {
    if s.pool.workers[w].stage.ok { MarkSafe(s, w, now); } else { StoppingSafe(s, P.Finish(w, true), w); }
  }

  lemma SurroundingsSafe(c: Settings, s: State, e: Event)
    requires 1 <= c.maxPending && Safe(s) && Allowed(c, s, e) && Sound(s, e)
    requires e.Arrive? || e.Expire? || e.Restart?
    ensures Safe(Apply(c, s, e))
  {
    if e.Restart? { RestartSafe(c, s); }
    if e.Arrive? { ArriveSafe(c, s, e.labels); }
  }

  lemma StepSafe(c: Settings, s: State, e: Event)
    requires 1 <= c.maxPending && Safe(s) && Allowed(c, s, e) && Sound(s, e)
    ensures Safe(Apply(c, s, e))
  {
    if IsTaskEvent(e) {
      TaskStepSafe(c, s, e);
    } else if e.Take? || e.LetGo? || e.Leave? || e.Shut? {
      IdleStepSafe(c, s, e);
    } else if IsJobEvent(e) {
      WorkerStepSafe(c, s, e);
    } else if e.ServeTransition? {
      ServeTransitionSafe(c, s, e.w, e.effect, e.report);
    } else if e.ServeDelivery? {
      ServeDeliverySafe(c, s, e.w, e.effect, e.report);
    } else if e.LoseDelivery? {
      LoseDeliverySafe(c, s, e.w);
    } else if e.Delivered? {
      DeliveredSafe(c, s, e.w, e.now);
    } else {
      SurroundingsSafe(c, s, e);
    }
  }

  lemma {:induction false} RunSafe(c: Settings, s: State, events: seq<Event>)
    requires 1 <= c.maxPending && Safe(s) && SoundRun(c, s, events)
    ensures IsRun(c, s, events) && Safe(After(c, s, events))
    decreases |events|
  {
    if events != [] {
      StepSafe(c, s, events[0]);
      RunSafe(c, Apply(c, s, events[0]), events[1..]);
    }
  }

  lemma InitialSafe(c: Settings)
    requires 1 <= c.maxPending
    ensures Safe(Initial(c))
  {
    InitialCoherent(c);
  }

  /**
   Over every interleaving: each alert Alertmanager holds belongs to an active
   row and is the one the row stores, or the one a worker is about to store;
   and no incident has two.
   */
  lemma {:induction false} NoOrphanAlerts(c: Settings, events: seq<Event>)
    requires 1 <= c.maxPending && SoundRun(c, Initial(c), events)
    ensures IsRun(c, Initial(c), events) && NoOrphans(After(c, Initial(c), events))
  {
    InitialSafe(c);
    RunSafe(c, Initial(c), events);
    SafeHasNoOrphans(After(c, Initial(c), events));
  }

  /** In particular a resolved incident has no alert left. */
  lemma {:induction false} ResolvedMeansSilent(c: Settings, events: seq<Event>, fp: Key)
    requires 1 <= c.maxPending && SoundRun(c, Initial(c), events)
    requires IsRun(c, Initial(c), events)
    requires var s := After(c, Initial(c), events); fp in s.rows && !s.rows[fp].active
    ensures forall id :: id in After(c, Initial(c), events).alerts ==> id.key != fp
  {
    NoOrphanAlerts(c, events);
  }
}
