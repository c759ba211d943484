/**
 The poll tasks of one cycle run side by side: their cancellations, resolutions
 and enqueues fall between each other's steps, and between those of the workers.
 What the store holds and reports about one minion does not depend on it.
 */
module Interleaving {
  import opened Domain
  import opened Protocol
  import opened Coherence
  import P = WorkerPool
  import S = StoreModel
  import O = PollOrder

  /** Not a step of this minion's poll task, and not the acknowledgement of one of its incidents. */
  ghost predicate Foreign(s: State, e: Event, minion: string) {
    match e
    case Reconcile(m, _, _, _) => m != minion
    case CancelNext(m, _) => m != minion
    case ServeResolution(m, _, _) => m != minion
    case FinishResolution(m, _) => m != minion
    case EnqueueNext(m, _) => m != minion
    case EndTask(m) => m != minion
    case Delivered(w, _) => At(s, w, P.DeliveryReplied(true)) ==> ItemOf(s, w).fingerprint.minion != minion
    case _ => true
  }

  lemma ForeignReconcile(rows: S.Rows, m: string, cycle: seq<Anomaly>, now: real, minion: string)
    requires RowsKeyed(rows) && m != minion
    ensures O.AgreeOn(S.Reconcile(rows, m, OfMinion(cycle, m), now), rows, minion)
  {
    var rows' := S.Reconcile(rows, m, OfMinion(cycle, m), now);
    forall fp | O.BelongsTo(fp, minion)
      ensures (fp in rows' <==> fp in rows) && (fp in rows' ==> rows'[fp] == rows[fp])
    {
      S.ReconcileAt(rows, m, OfMinion(cycle, m), now, fp);
      S.ChosenIsOfMinion(cycle, m, fp);
    }
  }

  lemma ForeignResolution(rows: S.Rows, fp: Key, now: real, minion: string)
    requires fp.minion != minion
    ensures O.AgreeOn(S.MarkResolved(rows, fp, now), rows, minion)
  {
  }

  lemma ForeignCancel(s: State, m: string, now: real, minion: string)
    requires Coherent(s) && m != minion && m in s.tasks && s.tasks[m].resolved != []
    ensures O.AgreeOn(CancelOne(s, m, now).rows, s.rows, minion)
  {
    assert TaskLive(s.rows, s.pool, m, s.tasks[m]) && s.tasks[m].resolved[0] in s.tasks[m].resolved;
    ForeignResolution(s.rows, s.tasks[m].resolved[0].fingerprint, now, minion);
  }

  /** A foreign event leaves every row of the minion as it was. */
  lemma ForeignKeepsRows(c: Settings, s: State, e: Event, minion: string)
    requires Coherent(s) && Allowed(c, s, e) && Foreign(s, e, minion)
    ensures O.AgreeOn(Apply(c, s, e).rows, s.rows, minion)
  {
    if e.Reconcile? {
      ForeignReconcile(s.rows, e.minion, e.cycle, e.now, minion);
    } else if e.CancelNext? {
      ForeignCancel(s, e.minion, e.now, minion);
    } else if e.FinishResolution? {
      assert TaskLive(s.rows, s.pool, e.minion, s.tasks[e.minion]);
      ForeignResolution(s.rows, s.tasks[e.minion].post.fp, e.now, minion);
    } else if e.Delivered? {
      assert JobLive(s.rows, ItemOf(s, e.w));
    }
  }

  ghost predicate ForeignRun(c: Settings, s: State, events: seq<Event>, minion: string)
    decreases |events|
  {
    events == [] ||
    (Allowed(c, s, events[0]) && Foreign(s, events[0], minion)
     && ForeignRun(c, Apply(c, s, events[0]), events[1..], minion))
  }

  lemma {:induction false} ForeignRunKeepsRows(c: Settings, s: State, events: seq<Event>, minion: string)
    requires 1 <= c.maxPending && Coherent(s) && ForeignRun(c, s, events, minion)
    ensures IsRun(c, s, events) && Coherent(After(c, s, events))
    ensures O.AgreeOn(After(c, s, events).rows, s.rows, minion)
    decreases |events|
  {
    if events != [] {
      var next := Apply(c, s, events[0]);
      ForeignKeepsRows(c, s, events[0], minion);
      StepCoherent(c, s, events[0]);
      ForeignRunKeepsRows(c, next, events[1..], minion);
      O.AgreeTransitive(After(c, next, events[1..]).rows, next.rows, s.rows, minion);
    }
  }

  /**
   However much of the other poll tasks and of the workers comes first, the
   minion's reconcile leaves the same rows and reports the same.
   */
  lemma {:induction false} TasksDoNotInterfere(c: Settings, s: State, events: seq<Event>, minion: string, p: O.Poll)
    requires 1 <= c.maxPending && Coherent(s) && ForeignRun(c, s, events, minion)
    ensures IsRun(c, s, events)
    ensures var s' := After(c, s, events);
            && O.AgreeOn(O.One(s'.rows, p, minion), O.One(s.rows, p, minion), minion)
            && O.ReportOf(c.store, s'.rows, p, minion) == O.ReportOf(c.store, s.rows, p, minion)
  {
    ForeignRunKeepsRows(c, s, events, minion);
    var s' := After(c, s, events);
    O.OneDependsOnItsMinion(s'.rows, s.rows, p, minion);
    O.ReportDependsOnItsMinion(c.store, s'.rows, s.rows, p, minion);
  }

  // What a poll task has listed stays actionable

  /** Every firing that a poll task has still to queue is of the present generation, and not absent. */
  ghost predicate ListedActionable(s: State) {
    forall m, f :: m in s.tasks && f in s.tasks[m].firing ==> S.IsActionable(s.rows, f.fingerprint, f.startsAt)
  }

  /** The rows that matter to it are its own minion's. */
  lemma ActionableElsewhere(rows: S.Rows, rows': S.Rows, minion: string, f: Firing)
    requires O.AgreeOn(rows', rows, minion) && f.fingerprint.minion == minion
    requires S.IsActionable(rows, f.fingerprint, f.startsAt)
    ensures S.IsActionable(rows', f.fingerprint, f.startsAt)
  {
    assert O.BelongsTo(f.fingerprint, minion);
  }

  lemma BeginListsActionable(c: Settings, s: State, e: Event, f: Firing)
    requires e.Reconcile? && f in Begin(c, s, e).tasks[e.minion].firing
    ensures S.IsActionable(Begin(c, s, e).rows, f.fingerprint, f.startsAt)
  {
    S.FiringIsActionable(c.store, s.rows, e.minion, OfMinion(e.cycle, e.minion), e.now, f);
  }

  lemma OwnEventKeepsActionable(c: Settings, s: State, e: Event, m: string, f: Firing)
    requires Coherent(s) && ListedActionable(s) && Allowed(c, s, e) && !Foreign(s, e, m)
    requires m in Apply(c, s, e).tasks && f in Apply(c, s, e).tasks[m].firing
    ensures S.IsActionable(Apply(c, s, e).rows, f.fingerprint, f.startsAt)
  {
    if e.Reconcile? {
      BeginListsActionable(c, s, e, f);
    } else if e.CancelNext? {
      assert TaskLive(s.rows, s.pool, m, s.tasks[m]) && s.tasks[m].resolved[0] in s.tasks[m].resolved;
    } else if e.FinishResolution? {
      assert TaskLive(s.rows, s.pool, m, s.tasks[m]);
    } else if e.Delivered? {
      AcknowledgementReachesItsRow(c, s, e.w, e.now);
      assert JobLive(s.rows, ItemOf(s, e.w));
    }
  }

  lemma ForeignKeepsTask(c: Settings, s: State, e: Event, m: string)
    requires Allowed(c, s, e) && Foreign(s, e, m) && m in Apply(c, s, e).tasks
    ensures m in s.tasks && Apply(c, s, e).tasks[m] == s.tasks[m]
  {
  }

  lemma StepKeepsListedActionable(c: Settings, s: State, e: Event)
    requires 1 <= c.maxPending && Coherent(s) && ListedActionable(s) && Allowed(c, s, e)
    ensures ListedActionable(Apply(c, s, e))
  {
    var s' := Apply(c, s, e);
    forall m, f | m in s'.tasks && f in s'.tasks[m].firing ensures S.IsActionable(s'.rows, f.fingerprint, f.startsAt) {
      if Foreign(s, e, m) {
        ForeignKeepsTask(c, s, e, m);
        ForeignKeepsRows(c, s, e, m);
        assert TaskLive(s.rows, s.pool, m, s.tasks[m]);
        ActionableElsewhere(s.rows, s'.rows, m, f);
      } else {
        OwnEventKeepsActionable(c, s, e, m, f);
      }
    }
  }

  /** Over every run: what a poll task has read as firing is still actionable when its turn comes to be queued. */
  lemma {:induction false} ListedStaysActionable(c: Settings, s: State, events: seq<Event>)
    requires 1 <= c.maxPending && Coherent(s) && ListedActionable(s) && IsRun(c, s, events)
    ensures Coherent(After(c, s, events)) && ListedActionable(After(c, s, events))
    decreases |events|
  {
    if events != [] {
      StepCoherent(c, s, events[0]);
      StepKeepsListedActionable(c, s, events[0]);
      ListedStaysActionable(c, Apply(c, s, events[0]), events[1..]);
    }
  }
}
