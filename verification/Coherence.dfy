/**
 Generation coherence: in every reachable state a queued or running job refers
 to an active row of its own generation. No hypothesis about deliveries is needed.
 */
module Coherence {
  import opened Domain
  import opened Protocol
  import Q = QueueModel
  import P = WorkerPool
  import S = StoreModel

  ghost predicate RowLive(rows: S.Rows, fp: Key, startsAt: int) {
    fp in rows && rows[fp].active && rows[fp].startsAt == startsAt
  }

  /** The minion column and the stored labels agree with the fingerprint, as the poll task's filter arranges. */
  ghost predicate RowsKeyed(rows: S.Rows) {
    S.Keyed(rows) && forall fp :: fp in rows ==> PayloadKeyed(rows[fp].payload, fp)
  }

  /** A payload that was stored for an incident carries its key. */
  ghost predicate PayloadKeyed(payload: Option<Payload>, fp: Key) {
    payload.Some? ==> payload.value.labels.key == fp
  }

  ghost predicate FiringLive(rows: S.Rows, f: Firing) {
    && f.anomaly.IdentityKey() == f.fingerprint
    && PayloadKeyed(f.previous, f.fingerprint)
    && RowLive(rows, f.fingerprint, f.startsAt)
  }

  ghost predicate RecordLive(rows: S.Rows, r: S.Record) {
    PayloadKeyed(r.payload, r.fingerprint) && RowLive(rows, r.fingerprint, r.startsAt)
  }

  ghost predicate JobLive(rows: S.Rows, x: Q.Item) {
    x.payload.firing.fingerprint == x.fingerprint && FiringLive(rows, x.payload.firing)
  }

  ghost predicate JobsLive(rows: S.Rows, pool: P.Pool) {
    && (forall x :: x in pool.queue.pending ==> JobLive(rows, x))
    && (forall w :: 0 <= w < |pool.workers| && P.Busy(pool.workers[w]) ==> JobLive(rows, pool.workers[w].item))
  }

  /** Neither pending nor in flight. */
  ghost predicate Absent(pool: P.Pool, fp: Key) {
    fp !in pool.queue.inFlight && forall x :: x in pool.queue.pending ==> x.fingerprint != fp
  }

  function PostKey(post: Post): Key
    requires !post.NoPost?
  {
    post.fp
  }

  ghost predicate TaskLive(rows: S.Rows, pool: P.Pool, minion: string, t: Task) {
    && (forall i, j :: 0 <= i < j < |t.resolved| ==> t.resolved[i].fingerprint != t.resolved[j].fingerprint)
    && (forall r :: r in t.resolved ==> r.fingerprint.minion == minion && RecordLive(rows, r))
    && (forall f :: f in t.firing ==> f.fingerprint.minion == minion && FiringLive(rows, f))
    && (forall r, f :: r in t.resolved && f in t.firing ==> r.fingerprint != f.fingerprint)
    && (!t.post.NoPost? ==>
          && PostKey(t.post).minion == minion
          && (t.post.Sent? ==> t.post.labels.key == t.post.fp)
          && Absent(pool, PostKey(t.post))
          && PostKey(t.post) in rows && rows[PostKey(t.post)].active
          && (forall r :: r in t.resolved ==> r.fingerprint != PostKey(t.post))
          && (forall f :: f in t.firing ==> f.fingerprint != PostKey(t.post)))
  }

  ghost predicate TasksLive(rows: S.Rows, pool: P.Pool, tasks: map<string, Task>) {
    forall minion :: minion in tasks ==> TaskLive(rows, pool, minion, tasks[minion])
  }

  ghost predicate Coherent(s: State) {
    && P.PoolValid(s.pool)
    && RowsKeyed(s.rows)
    && JobsLive(s.rows, s.pool)
    && TasksLive(s.rows, s.pool, s.tasks)
  }

  /** Every live row stays live with the same start. */
  ghost predicate KeepsLive(rows: S.Rows, rows': S.Rows) {
    forall fp, startsAt :: RowLive(rows, fp, startsAt) ==> RowLive(rows', fp, startsAt)
  }

  /** The same, but for one incident. */
  ghost predicate KeepsOthersLive(rows: S.Rows, rows': S.Rows, gone: Key) {
    forall fp, startsAt :: fp != gone && RowLive(rows, fp, startsAt) ==> RowLive(rows', fp, startsAt)
  }

  // How the statements of the store treat live rows

  lemma ReconcileKeepsLive(rows: S.Rows, minion: string, cycle: seq<Anomaly>, now: real)
    requires RowsKeyed(rows)
    ensures var rows' := S.Reconcile(rows, minion, OfMinion(cycle, minion), now);
            RowsKeyed(rows') && KeepsLive(rows, rows')
  {
    var detected := OfMinion(cycle, minion);
    var rows' := S.Reconcile(rows, minion, detected, now);
    var chosen := S.PreferMoreSevere(detected).chosen;
    forall fp | fp in rows'
      ensures rows'[fp].minion == fp.minion
      ensures PayloadKeyed(rows'[fp].payload, fp)
    {
      S.ReconcileAt(rows, minion, detected, now, fp);
      S.ChosenIsOfMinion(cycle, minion, fp);
    }
    forall fp, startsAt | RowLive(rows, fp, startsAt) ensures RowLive(rows', fp, startsAt) {
      S.ReconcileAt(rows, minion, detected, now, fp);
      S.ChosenIsOfMinion(cycle, minion, fp);
    }
  }

  lemma MarkEmittedKeepsLive(rows: S.Rows, fp: Key, payload: Payload, now: real, startsAt: Option<int>)
    requires RowsKeyed(rows) && payload.labels.key == fp
    ensures var rows' := S.MarkEmitted(rows, fp, payload, now, startsAt);
            RowsKeyed(rows') && KeepsLive(rows, rows')
  {
  }

  lemma MarkResolvedKeepsOthersLive(rows: S.Rows, fp: Key, now: real)
    requires RowsKeyed(rows)
    ensures var rows' := S.MarkResolved(rows, fp, now);
            RowsKeyed(rows') && KeepsOthersLive(rows, rows', fp)
  {
  }

  // The poll task's events

  lemma FiringStaysLive(c: Settings, rows: S.Rows, minion: string, cycle: seq<Anomaly>, now: real, f: Firing)
    requires RowsKeyed(rows) && f in S.CycleFiring(c.store, rows, minion, OfMinion(cycle, minion), now)
    ensures f.fingerprint in S.PreferMoreSevere(OfMinion(cycle, minion)).chosen
    ensures f.fingerprint.minion == minion
    ensures FiringLive(S.Reconcile(rows, minion, OfMinion(cycle, minion), now), f)
  {
    var detected := OfMinion(cycle, minion);
    var selection := S.PreferMoreSevere(detected);
    S.SelectionWellFormed(detected);
    S.FiringListContents(c.store, rows, minion, selection.order, selection.chosen, now);
    S.ChosenIsOfMinion(cycle, minion, f.fingerprint);
    S.ReconcileAt(rows, minion, detected, now, f.fingerprint);
  }

  lemma ResolvedStaysLive(c: Settings, rows: S.Rows, minion: string, cycle: seq<Anomaly>, now: real, r: S.Record)
    requires RowsKeyed(rows)
    requires r in S.ResolvedSet(c.store, rows, minion, S.PreferMoreSevere(OfMinion(cycle, minion)).chosen)
    ensures r.fingerprint !in S.PreferMoreSevere(OfMinion(cycle, minion)).chosen
    ensures r.fingerprint.minion == minion
    ensures RecordLive(S.Reconcile(rows, minion, OfMinion(cycle, minion), now), r)
  {
    S.ReconcileAt(rows, minion, OfMinion(cycle, minion), now, r.fingerprint);
  }

  lemma BeginCoherent(c: Settings, s: State, e: Event)
    requires Coherent(s) && e.Reconcile? && Allowed(c, s, e)
    ensures Coherent(Begin(c, s, e))
  {
    var s' := Begin(c, s, e);
    ReconcileKeepsLive(s.rows, e.minion, e.cycle, e.now);
    RowsUpdateCoherent(s, s.(rows := s'.rows));
    var task := s'.tasks[e.minion];
    forall f | f in task.firing
      ensures f.fingerprint.minion == e.minion && FiringLive(s'.rows, f)
      ensures f.fingerprint in S.PreferMoreSevere(OfMinion(e.cycle, e.minion)).chosen
    {
      FiringStaysLive(c, s.rows, e.minion, e.cycle, e.now, f);
    }
    forall r | r in task.resolved
      ensures r.fingerprint.minion == e.minion && RecordLive(s'.rows, r)
      ensures r.fingerprint !in S.PreferMoreSevere(OfMinion(e.cycle, e.minion)).chosen
    {
      ResolvedStaysLive(c, s.rows, e.minion, e.cycle, e.now, r);
    }
    assert TaskLive(s'.rows, s'.pool, e.minion, task);
  }

  /** The tail of a list without repeats holds everything but its first element. */
  lemma TailRecords(l: seq<S.Record>)
    requires l != []
    requires forall i, j :: 0 <= i < j < |l| ==> l[i].fingerprint != l[j].fingerprint
    ensures forall r :: r in l[1..] ==> r in l && r.fingerprint != l[0].fingerprint
  {
  }

  /** Once withdrawn, an incident that is not in flight is absent from the pool, and nothing else changed. */
  lemma WithdrawnIsAbsent(p: P.Pool, fp: Key)
    requires P.PoolValid(p)
    ensures var p' := P.Apply(p, P.Withdraw(fp));
            && P.PoolValid(p')
            && p'.workers == p.workers && p'.queue.inFlight == p.queue.inFlight
            && (forall x :: x in p'.queue.pending <==> x in p.queue.pending && x.fingerprint != fp)
            && (!Q.Cancel(p.queue, fp).1.CancelInFlight? ==> Absent(p', fp))
            && (Q.Cancel(p.queue, fp).1.CancelInFlight? <==> fp in p.queue.inFlight)
  {
    P.StepKeepsValid(p, P.Withdraw(fp));
    Q.CancelValid(p.queue, fp);
    Q.FindMember(p.queue.pending, fp);
  }

  /** No job refers to an incident that is absent from the pool. */
  lemma AbsentMeansNoJob(p: P.Pool, fp: Key)
    requires P.PoolValid(p) && Absent(p, fp)
    ensures forall w :: 0 <= w < |p.workers| && P.Busy(p.workers[w]) ==> p.workers[w].item.fingerprint != fp
  {
    forall w | 0 <= w < |p.workers| && P.Busy(p.workers[w]) ensures p.workers[w].item.fingerprint != fp {
      assert P.Holds(p, w, p.workers[w].item.fingerprint);
    }
  }

  /** A row may stop being live once no job, no list and no other task refers to it. */
  lemma ResolvingIsCoherent(s: State, s': State, minion: string, fp: Key)
    requires P.PoolValid(s.pool) && JobsLive(s.rows, s.pool) && TasksLive(s.rows, s.pool, s.tasks)
    requires s'.pool == s.pool && s'.tasks == s.tasks
    requires KeepsOthersLive(s.rows, s'.rows, fp) && fp.minion == minion && Absent(s.pool, fp)
    requires minion in s.tasks && s.tasks[minion].post.NoPost?
    requires forall r :: r in s.tasks[minion].resolved ==> r.fingerprint != fp
    requires forall f :: f in s.tasks[minion].firing ==> f.fingerprint != fp
    ensures JobsLive(s'.rows, s'.pool) && TasksLive(s'.rows, s'.pool, s'.tasks)
  {
    AbsentMeansNoJob(s.pool, fp);
    forall m | m in s'.tasks ensures TaskLive(s'.rows, s'.pool, m, s'.tasks[m]) {
      assert TaskLive(s.rows, s.pool, m, s.tasks[m]);
      var t := s.tasks[m];
      if !t.post.NoPost? {
        assert RowLive(s.rows, PostKey(t.post), s.rows[PostKey(t.post)].startsAt);
      }
    }
  }

  lemma WithdrawCoherent(s: State, minion: string)
    requires Coherent(s) && minion in s.tasks && s.tasks[minion].resolved != [] && s.tasks[minion].post.NoPost?
    ensures var task := s.tasks[minion];
            Coherent(SetTask(PoolStep(s, P.Withdraw(task.resolved[0].fingerprint)), minion,
                             Task(task.resolved[1..], NoPost, task.firing)))
  {
    var task := s.tasks[minion];
    var fp := task.resolved[0].fingerprint;
    var s' := SetTask(PoolStep(s, P.Withdraw(fp)), minion, Task(task.resolved[1..], NoPost, task.firing));
    assert TaskLive(s.rows, s.pool, minion, task);
    TailRecords(task.resolved);
    WithdrawnIsAbsent(s.pool, fp);
    forall m | m in s'.tasks ensures TaskLive(s'.rows, s'.pool, m, s'.tasks[m]) {
      assert TaskLive(s.rows, s.pool, m, s.tasks[m]);
    }
  }

  lemma CancelOneCoherent(s: State, minion: string, now: real)
    requires Coherent(s) && minion in s.tasks && s.tasks[minion].resolved != [] && s.tasks[minion].post.NoPost?
    ensures Coherent(CancelOne(s, minion, now))
  {
    var task := s.tasks[minion];
    var record := task.resolved[0];
    var fp := record.fingerprint;
    var mid := SetTask(PoolStep(s, P.Withdraw(fp)), minion, Task(task.resolved[1..], NoPost, task.firing));
    var s' := CancelOne(s, minion, now);
    assert TaskLive(s.rows, s.pool, minion, task);
    TailRecords(task.resolved);
    WithdrawnIsAbsent(s.pool, fp);
    WithdrawCoherent(s, minion);
    if fp in s.pool.queue.inFlight {
    } else if record.payload.None? {
      MarkResolvedKeepsOthersLive(s.rows, fp, now);
      ResolvingIsCoherent(mid, s', minion, fp);
    } else {
      forall m | m in s'.tasks ensures TaskLive(s'.rows, s'.pool, m, s'.tasks[m]) {
        assert TaskLive(mid.rows, mid.pool, m, mid.tasks[m]);
      }
    }
  }

  lemma ClearPostCoherent(s: State, minion: string)
    requires Coherent(s) && minion in s.tasks && s.tasks[minion].post.Replied?
    ensures Coherent(SetTask(s, minion, s.tasks[minion].(post := NoPost)))
  {
    var mid := SetTask(s, minion, s.tasks[minion].(post := NoPost));
    assert TaskLive(s.rows, s.pool, minion, s.tasks[minion]);
    forall m | m in mid.tasks ensures TaskLive(mid.rows, mid.pool, m, mid.tasks[m]) {
      assert TaskLive(s.rows, s.pool, m, s.tasks[m]);
    }
  }

  lemma FinishResolutionCoherent(s: State, minion: string, now: real)
    requires Coherent(s) && minion in s.tasks && s.tasks[minion].post.Replied?
    ensures Coherent(ConcludeResolution(s, minion, now))
  {
    var post := s.tasks[minion].post;
    var mid := SetTask(s, minion, s.tasks[minion].(post := NoPost));
    assert TaskLive(s.rows, s.pool, minion, s.tasks[minion]);
    ClearPostCoherent(s, minion);
    if post.ok {
      MarkResolvedKeepsOthersLive(s.rows, post.fp, now);
      ResolvingIsCoherent(mid, ConcludeResolution(s, minion, now), minion, post.fp);
    }
  }

  lemma EnqueueOneCoherent(c: Settings, s: State, minion: string, now: real)
    requires Coherent(s) && Enabled(c, s, EnqueueNext(minion, now))
    ensures Coherent(EnqueueOne(s, minion, now))
  {
    var task := s.tasks[minion];
    var firing := task.firing[0];
    var fp, work := firing.fingerprint, Work(firing, now);
    var offer := P.Offer(fp, firing.anomaly.severity, work);
    var s' := EnqueueOne(s, minion, now);
    assert TaskLive(s.rows, s.pool, minion, task);
    assert firing in task.firing;
    P.StepKeepsValid(s.pool, offer);
    Q.EnqueueItems(s.pool.queue, fp, firing.anomaly.severity, work);
    forall x | x in s'.pool.queue.pending ensures JobLive(s'.rows, x) {
      if x !in s.pool.queue.pending {
        assert x.fingerprint == fp && x.payload == work;
      }
    }
    forall m | m in s'.tasks ensures TaskLive(s'.rows, s'.pool, m, s'.tasks[m]) {
      assert TaskLive(s.rows, s.pool, m, s.tasks[m]);
    }
  }

  // The worker's events

  /** A pool step that offers nothing keeps every job live and every absent incident absent. */
  lemma PoolStepCoherent(s: State, step: P.Step)
    requires Coherent(s) && P.Enabled(s.pool, step) && !step.Offer? && !step.Withdraw?
    ensures Coherent(PoolStep(s, step))
  {
    var s' := PoolStep(s, step);
    P.StepKeepsValid(s.pool, step);
    if step.Take? {
      Q.PopValid(s.pool.queue);
      assert s.pool.queue.pending[0] in s.pool.queue.pending;
    }
    forall m | m in s'.tasks ensures TaskLive(s'.rows, s'.pool, m, s'.tasks[m]) {
      assert TaskLive(s.rows, s.pool, m, s.tasks[m]);
    }
  }

  lemma RowsUpdateCoherent(s: State, s': State)
    requires Coherent(s) && s'.pool == s.pool && s'.tasks == s.tasks
    requires RowsKeyed(s'.rows) && KeepsLive(s.rows, s'.rows)
    ensures Coherent(s')
  {
    forall m | m in s'.tasks ensures TaskLive(s'.rows, s'.pool, m, s'.tasks[m]) {
      var t := s.tasks[m];
      assert TaskLive(s.rows, s.pool, m, t);
      if !t.post.NoPost? {
        assert RowLive(s.rows, PostKey(t.post), s.rows[PostKey(t.post)].startsAt);
      }
    }
  }

  lemma DeliveredCoherent(c: Settings, s: State, w: nat, now: real)
    requires Coherent(s) && Enabled(c, s, Delivered(w, now))
    ensures Coherent(Apply(c, s, Delivered(w, now)))
  {
    var item := ItemOf(s, w);
    var firing := item.payload.firing;
    assert JobLive(s.rows, item);
    PoolStepCoherent(s, P.Finish(w, true));
    MarkEmittedKeepsLive(s.rows, firing.fingerprint, NewPayload(item), now, Some(firing.startsAt));
    RowsUpdateCoherent(Finish(s, w), Apply(c, s, Delivered(w, now)));
  }

  /** The pool step of an event that changes nothing else a job depends on. */
  function StepOf(c: Settings, s: State, e: Event): P.Step
    requires IsPoolEvent(e) && Enabled(c, s, e)
  {
    match e
    case Take(w) => P.Take(w)
    case Start(w, now) =>
      if now - ItemOf(s, w).payload.detectedAt > c.maxJobAge || !Actionable(s, ItemOf(s, w)) then
        P.Finish(w, true)
      else
        P.Advance(w, P.Investigating)
    case Analysed(w, produced) =>
      if !produced || !Actionable(s, ItemOf(s, w)) then
        P.Finish(w, true)
      else
        P.Advance(w, if LabelsChanged(ItemOf(s, w)) then P.Resolving else P.Delivering)
    case ServeTransition(w, _, report) => P.Advance(w, P.ResolveReplied(report))
    case Transitioned(w) =>
      if !s.pool.workers[w].stage.ok || !Actionable(s, ItemOf(s, w)) then
        P.Finish(w, true)
      else
        P.Advance(w, P.Delivering)
    case ServeDelivery(w, _, report) => P.Advance(w, P.DeliveryReplied(report))
    case LoseDelivery(w) => P.Advance(w, P.DeliveryReplied(false))
    case Stop(w, how) =>
      if how.Timeout? then P.Finish(w, true) else if how.Error? then P.Finish(w, false) else P.Interrupt(w)
    case LetGo(w) => P.LetGo(w)
    case Leave(w) => P.Leave(w)
    case Shut => P.Shut
  }

  predicate IsPoolEvent(e: Event) {
    e.Take? || e.Start? || e.Analysed? || e.ServeTransition? || e.Transitioned? || e.ServeDelivery?
    || e.LoseDelivery? || e.Stop? || e.LetGo? || e.Leave? || e.Shut?
  }

  lemma PoolEventIsPoolStep(c: Settings, s: State, e: Event)
    requires IsPoolEvent(e) && Enabled(c, s, e)
    ensures var step := StepOf(c, s, e);
            && P.Enabled(s.pool, step) && !step.Offer? && !step.Withdraw?
            && Apply(c, s, e).pool == P.Apply(s.pool, step)
            && Apply(c, s, e).rows == s.rows && Apply(c, s, e).tasks == s.tasks
  {
  }

  lemma PoolEventCoherent(c: Settings, s: State, e: Event)
    requires Coherent(s) && IsPoolEvent(e) && Enabled(c, s, e)
    ensures Coherent(Apply(c, s, e))
  {
    var s' := Apply(c, s, e);
    PoolEventIsPoolStep(c, s, e);
    PoolStepCoherent(s, StepOf(c, s, e));
    assert s'.pool == PoolStep(s, StepOf(c, s, e)).pool;
  }

  lemma ServeResolutionCoherent(s: State, minion: string, effect: bool, report: bool)
    requires Coherent(s) && minion in s.tasks && s.tasks[minion].post.Sent?
    ensures Coherent(AnswerResolution(s, minion, effect, report))
  {
    var s' := AnswerResolution(s, minion, effect, report);
    forall m | m in s'.tasks ensures TaskLive(s'.rows, s'.pool, m, s'.tasks[m]) {
      assert TaskLive(s.rows, s.pool, m, s.tasks[m]);
    }
  }

  lemma {:induction false} StepCoherent(c: Settings, s: State, e: Event)
    requires 1 <= c.maxPending && Coherent(s) && Allowed(c, s, e)
    ensures Coherent(Apply(c, s, e))
  {
    match e
    case Reconcile(_, _, _, _) => BeginCoherent(c, s, e);
    case CancelNext(minion, now) => CancelOneCoherent(s, minion, now);
    case ServeResolution(minion, effect, report) => ServeResolutionCoherent(s, minion, effect, report);
    case FinishResolution(minion, now) => FinishResolutionCoherent(s, minion, now);
    case EnqueueNext(minion, now) => EnqueueOneCoherent(c, s, minion, now);
    case EndTask(minion) =>
    case Delivered(w, now) => DeliveredCoherent(c, s, w, now);
    case Arrive(_) =>
    case Expire(_) =>
    case Restart => P.FreshValid(c.maxPending, c.workers);
    case _ => PoolEventCoherent(c, s, e);
  }

  lemma InitialCoherent(c: Settings)
    requires 1 <= c.maxPending
    ensures Coherent(Initial(c))
  {
    P.FreshValid(c.maxPending, c.workers);
  }

  /** Every state of every run is coherent. */
  lemma {:induction false} RunCoherent(c: Settings, s: State, events: seq<Event>)
    requires 1 <= c.maxPending && Coherent(s) && IsRun(c, s, events)
    ensures Coherent(After(c, s, events))
    decreases |events|
  {
    if events != [] {
      StepCoherent(c, s, events[0]);
      RunCoherent(c, Apply(c, s, events[0]), events[1..]);
    }
  }

  /**
   Whatever the interleaving, every pending or running job refers to an active
   row of the generation it was queued for, and no two jobs refer to one row.
   */
  lemma {:induction false} JobsReferToTheirGeneration(c: Settings, events: seq<Event>)
    requires 1 <= c.maxPending && IsRun(c, Initial(c), events)
    ensures var s := After(c, Initial(c), events);
            && JobsLive(s.rows, s.pool)
            && Q.Distinct(s.pool.queue.pending)
            && P.Exclusive(s.pool)
            && (forall x :: x in s.pool.queue.pending ==> x.fingerprint !in s.pool.queue.inFlight)
  {
    InitialCoherent(c);
    RunCoherent(c, Initial(c), events);
  }

  /** A reconcile resolves nothing. */
  lemma ReconcileKeepsActive(rows: S.Rows, minion: string, cycle: seq<Anomaly>, now: real, fp: Key)
    requires fp in rows && rows[fp].active
    ensures var rows' := S.Reconcile(rows, minion, OfMinion(cycle, minion), now);
            fp in rows' && rows'[fp].active
  {
    S.ReconcileAt(rows, minion, OfMinion(cycle, minion), now, fp);
  }

  lemma CancelResolvesAbsent(s: State, minion: string, now: real, fp: Key)
    requires Coherent(s) && minion in s.tasks && s.tasks[minion].resolved != []
    requires fp in s.rows && s.rows[fp].active
    ensures var s' := CancelOne(s, minion, now);
            fp in s'.rows && (!s'.rows[fp].active ==> Absent(s'.pool, fp))
  {
    WithdrawnIsAbsent(s.pool, s.tasks[minion].resolved[0].fingerprint);
  }

  /** No event but a cancellation or a finished resolution makes an active row inactive. */
  lemma OthersKeepActive(c: Settings, s: State, e: Event, fp: Key)
    requires Allowed(c, s, e) && !e.CancelNext? && !e.FinishResolution?
    requires fp in s.rows && s.rows[fp].active
    ensures fp in Apply(c, s, e).rows && Apply(c, s, e).rows[fp].active
  {
    if e.Reconcile? { ReconcileKeepsActive(s.rows, e.minion, e.cycle, e.now, fp); }
  }

  /** A row is resolved only when its incident is neither pending nor in flight. */
  lemma {:induction false} ResolvedOnlyWhenAbsent(c: Settings, s: State, e: Event, fp: Key)
    requires 1 <= c.maxPending && Coherent(s) && Allowed(c, s, e)
    requires fp in s.rows && s.rows[fp].active
    ensures var s' := Apply(c, s, e);
            fp in s'.rows && (!s'.rows[fp].active ==> Absent(s'.pool, fp))
  {
    if e.CancelNext? {
      CancelResolvesAbsent(s, e.minion, e.now, fp);
    } else if e.FinishResolution? {
      assert TaskLive(s.rows, s.pool, e.minion, s.tasks[e.minion]);
    } else {
      OthersKeepActive(c, s, e, fp);
    }
  }

  /** An acknowledgement is never dropped by its guard, and changes no row but its own. */
  lemma AcknowledgementReachesItsRow(c: Settings, s: State, w: nat, now: real)
    requires Coherent(s) && At(s, w, P.DeliveryReplied(true))
    ensures var item, s' := ItemOf(s, w), Apply(c, s, Delivered(w, now));
            var fp := item.fingerprint;
            && fp in s.rows
            && s'.rows.Keys == s.rows.Keys
            && s'.rows[fp].lastEmitted == Some(now)
            && s'.rows[fp].payload == Some(NewPayload(item))
            && NewPayload(item).labels.key == fp
            && NewPayload(item).startsAt == s.rows[fp].startsAt == s'.rows[fp].startsAt
            && (forall other :: other in s.rows && other != fp ==> s'.rows[other] == s.rows[other])
  {
    assert JobLive(s.rows, ItemOf(s, w));
  }
}
