/**
 What a worker does with its job: it goes on only while the table still has the
 incident as it was queued, and it says how it ended.
 */
module Handler {
  import opened Domain
  import opened Protocol
  import opened Coherence
  import P = WorkerPool
  import S = StoreModel

  /** An active row of this generation that the last cycle of its minion contained. */
  ghost predicate Present(rows: S.Rows, fp: Key, startsAt: int) {
    fp in rows && rows[fp].active && rows[fp].startsAt == startsAt && rows[fp].absent == 0
  }

  function FiringAt(s: State, w: nat): Firing
    requires w < |s.pool.workers| && s.pool.workers[w].Running?
  {
    ItemOf(s, w).payload.firing
  }

  ghost predicate StillWanted(s: State, w: nat)
    requires w < |s.pool.workers| && s.pool.workers[w].Running?
  {
    Present(s.rows, FiringAt(s, w).fingerprint, FiringAt(s, w).startsAt)
  }

  /** A request of the worker is out. */
  predicate Sending(s: State, w: nat) {
    At(s, w, P.Resolving) || At(s, w, P.Delivering)
  }

  // One event

  /** The worker has the same job at this stage, and nothing else changed. */
  ghost predicate GoesOn(s: State, w: nat, s': State, stage: P.Stage)
    requires w < |s.pool.workers| && s.pool.workers[w].Running?
  {
    && s'.rows == s.rows && s'.tasks == s.tasks && s'.alerts == s.alerts && s'.strays == s.strays
    && s'.pool.queue == s.pool.queue
    && s'.pool.workers == s.pool.workers[w := P.Running(ItemOf(s, w), stage)]
  }

  /** The job is over and counts as completed, or as failed; the incident is still held. */
  ghost predicate Ends(s: State, w: nat, s': State, completed: nat, failed: nat)
    requires w < |s.pool.workers| && s.pool.workers[w].Running?
  {
    && s'.tasks == s.tasks && s'.alerts == s.alerts
    && s'.pool.workers == s.pool.workers[w := P.Counted(ItemOf(s, w))]
    && s'.pool.queue.pending == s.pool.queue.pending && s'.pool.queue.inFlight == s.pool.queue.inFlight
    && s'.pool.queue.counters == s.pool.queue.counters.(
         completed := s.pool.queue.counters.completed + completed, failed := s.pool.queue.counters.failed + failed)
  }

  /** A job is taken up exactly if it is not too old and its incident is present. */
  lemma StartDecides(c: Settings, s: State, w: nat, now: real)
    requires At(s, w, P.Started)
    ensures var s' := Apply(c, s, Start(w, now));
            if now - ItemOf(s, w).payload.detectedAt <= c.maxJobAge && StillWanted(s, w) then
              GoesOn(s, w, s', P.Investigating)
            else
              Ends(s, w, s', 1, 0) && s'.rows == s.rows && s'.strays == s.strays
  {
  }

  /**
   Its analysis is used exactly if there is one and the incident is present; an
   alert stored under other labels is resolved first.
   */
  lemma AnalysedDecides(c: Settings, s: State, w: nat, produced: bool)
    requires At(s, w, P.Investigating)
    ensures var s' := Apply(c, s, Analysed(w, produced));
            var f := FiringAt(s, w);
            var labels := Labels(f.anomaly.IdentityKey(), f.anomaly.severity);
            if produced && StillWanted(s, w) then
              GoesOn(s, w, s', if f.previous.Some? && f.previous.value.labels != labels then P.Resolving
                               else P.Delivering)
            else
              Ends(s, w, s', 1, 0) && s'.rows == s.rows && s'.strays == s.strays
  {
  }

  /** After the old labels were resolved the new alert is sent exactly if that succeeded and the incident is present. */
  lemma TransitionedDecides(c: Settings, s: State, w: nat, ok: bool)
    requires At(s, w, P.ResolveReplied(ok))
    ensures var s' := Apply(c, s, Transitioned(w));
            if ok && StillWanted(s, w) then
              GoesOn(s, w, s', P.Delivering)
            else
              Ends(s, w, s', 1, 0) && s'.rows == s.rows && s'.strays == s.strays
  {
  }

  /** An answered delivery ends the job, and a successful one is written to its row with what was sent. */
  lemma DeliveredEnds(c: Settings, s: State, w: nat, ok: bool, now: real)
    requires Coherent(s) && At(s, w, P.DeliveryReplied(ok))
    ensures var s', f := Apply(c, s, Delivered(w, now)), FiringAt(s, w);
            && Ends(s, w, s', 1, 0) && s'.strays == s.strays && s'.rows.Keys == s.rows.Keys
            && f.fingerprint in s.rows
            && (forall fp :: fp in s.rows && (!ok || fp != f.fingerprint) ==> s'.rows[fp] == s.rows[fp])
            && (ok ==>
                  && s'.rows[f.fingerprint].lastEmitted == Some(now)
                  && s'.rows[f.fingerprint].payload
                     == Some(Payload(Labels(f.anomaly.IdentityKey(), f.anomaly.severity), f.startsAt)))
  {
    assert JobLive(s.rows, ItemOf(s, w));
  }

  /** An exceeded deadline completes a job, an exception fails it, and a cancellation does neither. */
  lemma StopEnds(c: Settings, s: State, w: nat)
    requires w < |s.pool.workers| && s.pool.workers[w].Running?
    ensures Ends(s, w, Apply(c, s, Stop(w, Timeout)), 1, 0) && Ends(s, w, Apply(c, s, Stop(w, Error)), 0, 1)
    ensures var s' := Apply(c, s, Stop(w, Cancellation));
            && s'.pool.workers == s.pool.workers[w := P.Interrupted(ItemOf(s, w))] && s'.pool.queue == s.pool.queue
            && s'.rows == s.rows && s'.tasks == s.tasks && s'.alerts == s.alerts
  {
  }

  // Every event

  /** A step of the pool that puts a worker at another stage is an event of that worker. */
  lemma OnlyAdvanceChangesStage(p: P.Pool, step: P.Step, w: nat)
    requires P.Enabled(p, step) && w < |P.Apply(p, step).workers|
    requires P.Apply(p, step).workers[w].Running? && !P.Apply(p, step).workers[w].stage.Started?
    ensures w < |p.workers|
    ensures P.Apply(p, step).workers[w] == p.workers[w] || (step.Advance? && step.w == w)
  {
  }

  lemma AdvancesWhilePresent(c: Settings, s: State, e: Event)
    requires IsPoolEvent(e) && Enabled(c, s, e) && StepOf(c, s, e).Advance?
    requires StepOf(c, s, e).stage.Resolving? || StepOf(c, s, e).stage.Delivering?
    ensures StillWanted(s, StepOf(c, s, e).w)
  {
  }

  lemma OthersKeepWorkers(c: Settings, s: State, e: Event)
    requires Enabled(c, s, e) && !IsPoolEvent(e) && !e.Delivered? && !e.Restart?
    ensures Apply(c, s, e).pool.workers == s.pool.workers
  {
  }

  lemma DeliveredFinishes(c: Settings, s: State, e: Event)
    requires Enabled(c, s, e) && e.Delivered?
    ensures Apply(c, s, e).pool == P.Apply(s.pool, P.Finish(e.w, true))
  {
  }

  /** A worker that sends a request after an event sent it before, or its incident is present. */
  lemma OnlyPresentSends(c: Settings, s: State, e: Event, w: nat)
    requires Enabled(c, s, e) && Sending(Apply(c, s, e), w)
    ensures (w < |s.pool.workers| && s.pool.workers[w] == Apply(c, s, e).pool.workers[w])
         || StillWanted(Apply(c, s, e), w)
  {
    if IsPoolEvent(e) {
      PoolEventIsPoolStep(c, s, e);
      OnlyAdvanceChangesStage(s.pool, StepOf(c, s, e), w);
      if s.pool.workers[w] != Apply(c, s, e).pool.workers[w] { AdvancesWhilePresent(c, s, e); }
    } else if e.Delivered? {
      DeliveredFinishes(c, s, e);
    } else if !e.Restart? {
      OthersKeepWorkers(c, s, e);
    }
  }

  /**
   Over every run: at the moment at which a worker sends a request its job's
   incident is present, with an active row of the job's own start that the last
   cycle of its minion contained.
   */
  lemma {:induction false} SendsOnlyWhilePresent(c: Settings, events: seq<Event>, e: Event, w: nat)
    requires 1 <= c.maxPending && IsRun(c, Initial(c), events) && Allowed(c, After(c, Initial(c), events), e)
    requires var s := After(c, Initial(c), events);
             Sending(Apply(c, s, e), w) && !At(s, w, Apply(c, s, e).pool.workers[w].stage)
    ensures var s' := Apply(c, After(c, Initial(c), events), e);
            var item := ItemOf(s', w);
            && item.fingerprint in s'.rows
            && var row := s'.rows[item.fingerprint];
               row.active && row.startsAt == item.payload.firing.startsAt && row.absent == 0
  {
    var s := After(c, Initial(c), events);
    InitialCoherent(c);
    RunCoherent(c, Initial(c), events);
    StepCoherent(c, s, e);
    OnlyPresentSends(c, s, e, w);
    assert JobLive(Apply(c, s, e).rows, ItemOf(Apply(c, s, e), w));
  }

  // An incident that recovered

  predicate Contains(e: Event, fp: Key) {
    e.Reconcile? && exists a :: a in e.cycle && a.minion == e.minion && a.IdentityKey() == fp
  }

  /** The last cycle of its minion did not contain the incident, or it has no active row at all. */
  ghost predicate Gone(rows: S.Rows, fp: Key) {
    fp in rows ==> !rows[fp].active || rows[fp].absent > 0
  }

  lemma NotChosen(e: Event, fp: Key)
    requires e.Reconcile? && !Contains(e, fp)
    ensures fp !in S.PreferMoreSevere(OfMinion(e.cycle, e.minion)).chosen
  {
    S.SelectionWellFormed(OfMinion(e.cycle, e.minion));
  }

  lemma AbsentMeansGone(c: Settings, s: State, e: Event, fp: Key)
    requires Coherent(s) && Allowed(c, s, e) && e.Reconcile? && e.minion == fp.minion && !Contains(e, fp)
    ensures Gone(Apply(c, s, e).rows, fp)
  {
    NotChosen(e, fp);
    S.ReconcileAt(s.rows, e.minion, OfMinion(e.cycle, e.minion), e.now, fp);
  }

  lemma GoneStaysGone(c: Settings, s: State, e: Event, fp: Key)
    requires Allowed(c, s, e) && !Contains(e, fp) && Gone(s.rows, fp)
    ensures Gone(Apply(c, s, e).rows, fp)
  {
    if e.Reconcile? {
      NotChosen(e, fp);
      S.ReconcileAt(s.rows, e.minion, OfMinion(e.cycle, e.minion), e.now, fp);
    }
  }

  /** No request about the incident is out. */
  ghost predicate Silent(s: State, fp: Key) {
    forall w: nat :: Sending(s, w) ==> ItemOf(s, w).fingerprint != fp
  }

  /** The incident has no alert, and no request out, that was not there before. */
  ghost predicate NothingFired(s: State, s': State, fp: Key) {
    && (forall id :: id in s'.alerts && id.key == fp ==> id in s.alerts + s.strays)
    && (forall id :: id in s'.strays && id.key == fp ==> id in s.strays)
  }

  /** Whoever sends sent before, or sends for an incident that is present. */
  lemma SilentAfter(s: State, s': State, fp: Key)
    requires Coherent(s') && Gone(s'.rows, fp) && Silent(s, fp)
    requires forall w: nat :: Sending(s', w) ==>
               (w < |s.pool.workers| && s.pool.workers[w] == s'.pool.workers[w]) || StillWanted(s', w)
    ensures Silent(s', fp)
  {
    forall w: nat | Sending(s', w) ensures ItemOf(s', w).fingerprint != fp {
      assert JobLive(s'.rows, ItemOf(s', w));
      if w < |s.pool.workers| && s.pool.workers[w] == s'.pool.workers[w] { assert Sending(s, w); }
    }
  }

  lemma StaysSilent(c: Settings, s: State, e: Event, fp: Key)
    requires 1 <= c.maxPending && Coherent(s) && Allowed(c, s, e) && !Contains(e, fp)
    requires Gone(s.rows, fp) && Silent(s, fp)
    ensures Silent(Apply(c, s, e), fp)
  {
    var s' := Apply(c, s, e);
    GoneStaysGone(c, s, e, fp);
    StepCoherent(c, s, e);
    forall w: nat | Sending(s', w)
      ensures (w < |s.pool.workers| && s.pool.workers[w] == s'.pool.workers[w]) || StillWanted(s', w)
    {
      OnlyPresentSends(c, s, e, w);
    }
    SilentAfter(s, s', fp);
  }

  /** A request of this alert is out. */
  ghost predicate Out(s: State, id: Labels) {
    exists w: nat :: Sending(s, w) && NewLabels(ItemOf(s, w)) == id
  }

  lemma AlertsWereSent(c: Settings, s: State, e: Event, id: Labels)
    requires Enabled(c, s, e) && id in Apply(c, s, e).alerts
    ensures id in s.alerts + s.strays || Out(s, id)
  {
    if e.ServeDelivery? { assert Sending(s, e.w); }
  }

  lemma StraysWereSent(c: Settings, s: State, e: Event, id: Labels)
    requires Enabled(c, s, e) && id in Apply(c, s, e).strays
    ensures id in s.strays || Out(s, id)
  {
    if e.LoseDelivery? { assert Sending(s, e.w); }
    if e.Stop? && id !in s.strays { assert Sending(s, e.w); }
    if e.Restart? && id !in s.strays {
      var w: nat :| w < |s.pool.workers| && At(s, w, P.Delivering) && NewLabels(ItemOf(s, w)) == id;
      assert Sending(s, w);
    }
  }

  lemma SilentIsNotOut(s: State, fp: Key, id: Labels)
    requires Coherent(s) && Silent(s, fp) && id.key == fp
    ensures !Out(s, id)
  {
    forall w: nat | Sending(s, w) ensures NewLabels(ItemOf(s, w)).key != fp {
      assert JobLive(s.rows, ItemOf(s, w));
    }
  }

  lemma FiresNothing(c: Settings, s: State, e: Event, fp: Key)
    requires Coherent(s) && Allowed(c, s, e) && Silent(s, fp)
    ensures NothingFired(s, Apply(c, s, e), fp)
  {
    var s' := Apply(c, s, e);
    forall id | id in s'.alerts && id.key == fp ensures id in s.alerts + s.strays {
      AlertsWereSent(c, s, e, id);
      SilentIsNotOut(s, fp, id);
    }
    forall id | id in s'.strays && id.key == fp ensures id in s.strays {
      StraysWereSent(c, s, e, id);
      SilentIsNotOut(s, fp, id);
    }
  }

  /**
   From any state in which the incident is gone and no request about it is out, over
   every run in which no cycle contains it again: no request about it is sent, and
   no alert of it appears but one whose request was on its way already.
   */
  lemma {:induction false} RecoveredStaysSilent(c: Settings, s: State, events: seq<Event>, fp: Key)
    requires 1 <= c.maxPending && Coherent(s) && IsRun(c, s, events) && forall e :: e in events ==> !Contains(e, fp)
    requires Gone(s.rows, fp) && Silent(s, fp)
    ensures Silent(After(c, s, events), fp) && NothingFired(s, After(c, s, events), fp)
    decreases |events|
  {
    if events != [] {
      var e, next := events[0], Apply(c, s, events[0]);
      assert e in events && forall x :: x in events[1..] ==> x in events;
      GoneStaysGone(c, s, e, fp);
      StaysSilent(c, s, e, fp);
      FiresNothing(c, s, e, fp);
      StepCoherent(c, s, e);
      RecoveredStaysSilent(c, next, events[1..], fp);
    }
  }

  /**
   So a worker that is still investigating when its incident recovers reports
   nothing: after a cycle without the incident, over every run until a cycle
   contains it again, no request about it is sent.
   */
  lemma RecoveredWhileInvestigating(c: Settings, s: State, w: nat, e: Event, events: seq<Event>)
    requires 1 <= c.maxPending && Coherent(s) && Allowed(c, s, e)
    requires At(s, w, P.Started) || At(s, w, P.Investigating)
    requires e.Reconcile? && e.minion == ItemOf(s, w).fingerprint.minion
    requires IsRun(c, Apply(c, s, e), events)
    requires forall x :: x in [e] + events ==> !Contains(x, ItemOf(s, w).fingerprint)
    ensures var fp, s' := ItemOf(s, w).fingerprint, After(c, Apply(c, s, e), events);
            Silent(s', fp) && NothingFired(s, s', fp)
  {
    var fp, next := ItemOf(s, w).fingerprint, Apply(c, s, e);
    assert P.Holds(s.pool, w, fp) && e in [e] + events;
    forall v: nat | Sending(s, v) ensures ItemOf(s, v).fingerprint != fp {
      assert P.Holds(s.pool, v, ItemOf(s, v).fingerprint);
    }
    AbsentMeansGone(c, s, e, fp);
    StepCoherent(c, s, e);
    assert next.pool == s.pool && next.alerts == s.alerts && next.strays == s.strays;
    assert forall v: nat :: Sending(next, v) ==> Sending(s, v) && ItemOf(next, v) == ItemOf(s, v);
    assert forall x :: x in events ==> x in [e] + events;
    RecoveredStaysSilent(c, next, events, fp);
  }
}
