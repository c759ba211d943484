/**
 Progress of a resolution: once a reconcile has reported an incident as
 recovered, its poll task resolves it, row and alert, if no worker takes the
 incident up meanwhile and its resolution is delivered.
 */
module Progress {
  import opened Domain
  import opened Protocol
  import opened Coherence
  import opened OrphanAlerts
  import P = WorkerPool
  import S = StoreModel

  /** The minion's poll task goes on to its end, its resolution is delivered, and no worker takes the incident. */
  ghost predicate Undisturbed(s: State, e: Event, fp: Key) {
    match e
    case Restart => false
    case EndTask(minion) => minion != fp.minion
    case ServeResolution(minion, _, report) => PostOf(s, fp) ==> minion != fp.minion || report
    case Take(w) => s.pool.queue.pending != [] ==> s.pool.queue.pending[0].fingerprint != fp
    case _ => true
  }

  ghost predicate PostOf(s: State, fp: Key) {
    fp.minion in s.tasks && !s.tasks[fp.minion].post.NoPost? && PostKey(s.tasks[fp.minion].post) == fp
  }

  ghost predicate Listed(s: State, fp: Key) {
    fp.minion in s.tasks && exists r :: r in s.tasks[fp.minion].resolved && r.fingerprint == fp
  }

  ghost predicate Resolved(s: State, fp: Key) {
    fp in s.rows && !s.rows[fp].active
  }

  /** The resolution is still listed, or under way and not failed, or done. */
  ghost predicate UnderWay(s: State, fp: Key) {
    && fp.minion in s.tasks && fp !in s.pool.queue.inFlight
    && (|| Listed(s, fp)
        || (PostOf(s, fp) && (s.tasks[fp.minion].post.Replied? ==> s.tasks[fp.minion].post.ok))
        || Resolved(s, fp))
  }

  /** A reconcile lists every incident that has been absent long enough. */
  lemma RecoveryIsListed(c: Settings, s: State, e: Event, fp: Key)
    requires Coherent(s) && e.Reconcile? && Allowed(c, s, e) && e.minion == fp.minion
    requires fp in s.rows && s.rows[fp].active && s.rows[fp].absent + 1 >= c.store.resolveAfter
    requires fp !in S.PreferMoreSevere(OfMinion(e.cycle, e.minion)).chosen && fp !in s.pool.queue.inFlight
    ensures UnderWay(Begin(c, s, e), fp)
  {
    var chosen := S.PreferMoreSevere(OfMinion(e.cycle, e.minion)).chosen;
    assert S.ReportsResolved(c.store, s.rows, e.minion, chosen, fp);
    var r := S.RecordOf(s.rows[fp], fp);
    assert r in S.ResolvedSet(c.store, s.rows, e.minion, chosen);
    assert r in e.resolved;
  }

  /** What is under way for an incident shows in its minion's task, its row and the in-flight set alone. */
  lemma SameUnderWay(s: State, s': State, fp: Key)
    requires UnderWay(s, fp) && fp !in s'.pool.queue.inFlight
    requires fp.minion in s'.tasks && s'.tasks[fp.minion] == s.tasks[fp.minion]
    requires Resolved(s, fp) ==> Resolved(s', fp)
    ensures UnderWay(s', fp)
  {
    assert Listed(s, fp) ==> Listed(s', fp);
  }

  /** Cancelling the head of another minion's list. */
  lemma ForeignCancelGoesOn(s: State, minion: string, now: real, fp: Key)
    requires Coherent(s) && UnderWay(s, fp) && minion != fp.minion
    requires minion in s.tasks && s.tasks[minion].resolved != []
    ensures UnderWay(CancelOne(s, minion, now), fp)
  {
    WithdrawnIsAbsent(s.pool, s.tasks[minion].resolved[0].fingerprint);
    SameUnderWay(s, CancelOne(s, minion, now), fp);
  }

  /** Cancelling the head of the own list starts its resolution, or finishes it at once. */
  lemma OwnCancelGoesOn(s: State, now: real, fp: Key)
    requires Coherent(s) && UnderWay(s, fp)
    requires s.tasks[fp.minion].post.NoPost? && s.tasks[fp.minion].resolved != []
    ensures UnderWay(CancelOne(s, fp.minion, now), fp)
  {
    var task := s.tasks[fp.minion];
    var record := task.resolved[0];
    var s' := CancelOne(s, fp.minion, now);
    WithdrawnIsAbsent(s.pool, record.fingerprint);
    assert TaskLive(s.rows, s.pool, fp.minion, task) && record in task.resolved;
    if r :| r in task.resolved && r.fingerprint == fp && record.fingerprint != fp {
      assert r in s'.tasks[fp.minion].resolved;
    }
  }

  /** An event of another minion's poll task leaves this minion's task alone and revives none of its rows. */
  lemma ReconcileGoesOn(c: Settings, s: State, e: Event, fp: Key)
    requires Coherent(s) && UnderWay(s, fp) && e.Reconcile? && Allowed(c, s, e)
    ensures UnderWay(Begin(c, s, e), fp)
  {
    S.ReconcileAt(s.rows, e.minion, OfMinion(e.cycle, e.minion), e.now, fp);
    S.ChosenIsOfMinion(e.cycle, e.minion, fp);
    assert Listed(s, fp) ==> Listed(Begin(c, s, e), fp);
  }

  lemma EnqueueGoesOn(c: Settings, s: State, minion: string, now: real, fp: Key)
    requires Coherent(s) && UnderWay(s, fp) && Enabled(c, s, EnqueueNext(minion, now))
    ensures UnderWay(EnqueueOne(s, minion, now), fp)
  {
    assert Listed(s, fp) ==> Listed(EnqueueOne(s, minion, now), fp);
  }

  lemma ResolutionGoesOn(s: State, minion: string, effect: bool, report: bool, fp: Key)
    requires UnderWay(s, fp) && minion in s.tasks && s.tasks[minion].post.Sent?
    requires PostOf(s, fp) ==> minion != fp.minion || report
    ensures UnderWay(AnswerResolution(s, minion, effect, report), fp)
  {
    assert Listed(s, fp) ==> Listed(AnswerResolution(s, minion, effect, report), fp);
  }

  lemma ConclusionGoesOn(s: State, minion: string, now: real, fp: Key)
    requires Coherent(s) && UnderWay(s, fp) && minion in s.tasks && s.tasks[minion].post.Replied?
    ensures UnderWay(ConcludeResolution(s, minion, now), fp)
  {
    assert TaskLive(s.rows, s.pool, minion, s.tasks[minion]);
    assert Listed(s, fp) ==> Listed(ConcludeResolution(s, minion, now), fp);
  }

  /** Only taking it puts an incident in flight. */
  lemma StaysOutOfFlight(pool: P.Pool, step: P.Step, fp: Key)
    requires P.Enabled(pool, step) && !step.Offer? && !step.Withdraw? && fp !in pool.queue.inFlight
    requires step.Take? ==> pool.queue.pending[0].fingerprint != fp
    ensures fp !in P.Apply(pool, step).queue.inFlight
  {
  }

  lemma OnlyTakeTakes(c: Settings, s: State, e: Event)
    requires IsPoolEvent(e) && Enabled(c, s, e)
    ensures StepOf(c, s, e).Take? ==> e == Take(StepOf(c, s, e).w)
  {
  }

  lemma WorkerGoesOn(c: Settings, s: State, e: Event, fp: Key)
    requires Coherent(s) && UnderWay(s, fp) && IsPoolEvent(e) && Enabled(c, s, e) && Undisturbed(s, e, fp)
    ensures UnderWay(Apply(c, s, e), fp)
  {
    PoolEventIsPoolStep(c, s, e);
    OnlyTakeTakes(c, s, e);
    StaysOutOfFlight(s.pool, StepOf(c, s, e), fp);
    SameUnderWay(s, Apply(c, s, e), fp);
  }

  lemma DeliveredGoesOn(c: Settings, s: State, w: nat, now: real, fp: Key)
    requires UnderWay(s, fp) && Enabled(c, s, Delivered(w, now))
    ensures UnderWay(Apply(c, s, Delivered(w, now)), fp)
  {
    assert Listed(s, fp) ==> Listed(Apply(c, s, Delivered(w, now)), fp);
  }

  lemma SurroundingsGoOn(c: Settings, s: State, e: Event, fp: Key)
    requires UnderWay(s, fp) && Enabled(c, s, e) && Undisturbed(s, e, fp) && (e.EndTask? || e.Arrive? || e.Expire?)
    ensures UnderWay(Apply(c, s, e), fp)
  {
    assert Listed(s, fp) ==> Listed(Apply(c, s, e), fp);
  }

  lemma StepGoesOn(c: Settings, s: State, e: Event, fp: Key)
    requires Coherent(s) && UnderWay(s, fp) && Allowed(c, s, e) && Undisturbed(s, e, fp)
    ensures UnderWay(Apply(c, s, e), fp)
  {
    if IsPoolEvent(e) {
      WorkerGoesOn(c, s, e, fp);
    } else if e.Reconcile? {
      ReconcileGoesOn(c, s, e, fp);
    } else if e.CancelNext? {
      if e.minion == fp.minion { OwnCancelGoesOn(s, e.now, fp); } else { ForeignCancelGoesOn(s, e.minion, e.now, fp); }
    } else if e.ServeResolution? {
      ResolutionGoesOn(s, e.minion, e.effect, e.report, fp);
    } else if e.FinishResolution? {
      ConclusionGoesOn(s, e.minion, e.now, fp);
    } else if e.EnqueueNext? {
      EnqueueGoesOn(c, s, e.minion, e.now, fp);
    } else if e.Delivered? {
      DeliveredGoesOn(c, s, e.w, e.now, fp);
    } else {
      SurroundingsGoOn(c, s, e, fp);
    }
  }

  ghost predicate UndisturbedRun(c: Settings, s: State, events: seq<Event>, fp: Key)
    decreases |events|
  {
    events == [] ||
    (Allowed(c, s, events[0]) && Undisturbed(s, events[0], fp)
     && UndisturbedRun(c, Apply(c, s, events[0]), events[1..], fp))
  }

  lemma {:induction false} RunGoesOn(c: Settings, s: State, events: seq<Event>, fp: Key)
    requires 1 <= c.maxPending && Coherent(s) && UnderWay(s, fp) && UndisturbedRun(c, s, events, fp)
    ensures IsRun(c, s, events) && UnderWay(After(c, s, events), fp)
    decreases |events|
  {
    if events != [] {
      StepCoherent(c, s, events[0]);
      StepGoesOn(c, s, events[0], fp);
      RunGoesOn(c, Apply(c, s, events[0]), events[1..], fp);
    }
  }

  /**
   From a safe state in which no worker holds the incident, a reconcile that makes
   it absent for the required number of cycles starts its resolution: once the
   poll task has worked off its list, whatever ran beside it, the row is inactive
   and Alertmanager holds no alert of the incident.
   */
  lemma {:induction false} RecoveredIsResolved(c: Settings, s: State, e: Event, events: seq<Event>, fp: Key)
    requires 1 <= c.maxPending && Safe(s) && e.Reconcile? && Allowed(c, s, e) && e.minion == fp.minion
    requires fp in s.rows && s.rows[fp].active && s.rows[fp].absent + 1 >= c.store.resolveAfter
    requires fp !in S.PreferMoreSevere(OfMinion(e.cycle, e.minion)).chosen && fp !in s.pool.queue.inFlight
    requires SoundRun(c, Apply(c, s, e), events) && UndisturbedRun(c, Apply(c, s, e), events, fp)
    requires IsRun(c, Apply(c, s, e), events)
    requires var task := After(c, Apply(c, s, e), events).tasks;
             fp.minion in task ==> task[fp.minion].resolved == [] && task[fp.minion].post.NoPost?
    ensures var s' := After(c, Apply(c, s, e), events);
            fp in s'.rows && !s'.rows[fp].active && forall id :: id in s'.alerts ==> id.key != fp
  {
    var s' := After(c, Apply(c, s, e), events);
    RecoveryIsListed(c, s, e, fp);
    StepSafe(c, s, e);
    RunSafe(c, Apply(c, s, e), events);
    RunGoesOn(c, Apply(c, s, e), events, fp);
    forall id | id in s'.alerts ensures id.key != fp { assert Owned(s'.rows, s'.pool, id); }
  }
}
