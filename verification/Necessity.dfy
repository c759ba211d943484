/**
 The hypotheses of `OrphanAlerts.Sound` about requests, stopped workers and
 restarts are exact: from every safe state an if-and-only-if says when breaking
 one of them leaves an orphan.
 */
module Necessity {
  import opened Domain
  import opened Protocol
  import opened Coherence
  import opened OrphanAlerts
  import P = WorkerPool

  /** One more alert, for an active incident that nobody is about to acknowledge, is harmless only if it is stored. */
  lemma AddedAlert(s: State, id: Labels)
    requires Safe(s) && id.key in s.rows && s.rows[id.key].active
    requires forall v: nat :: P.Holds(s.pool, v, id.key) ==> !At(s, v, P.DeliveryReplied(true))
    ensures NoOrphans(s.(alerts := s.alerts + {id})) <==> StoredLabels(s.rows, id.key) == Some(id)
  {
    var s' := s.(alerts := s.alerts + {id});
    SafeHasNoOrphans(s);
    assert forall v: nat :: !AboutToMark(s'.pool, v, id);
    if StoredLabels(s.rows, id.key) == Some(id) {
      forall id' | id' in s.alerts && id'.key == id.key ensures id' == id {
        StoredUnlessMarking(s, id');
      }
    } else {
      assert id in s'.alerts;
    }
  }

  /** A worker that has counted its job acknowledges nothing more. */
  lemma DoneMarksNothing(s: State, w: nat, fp: Key)
    requires P.PoolValid(s.pool) && P.Holds(s.pool, w, fp) && !s.pool.workers[w].Running?
    ensures forall v: nat :: P.Holds(s.pool, v, fp) ==> !At(s, v, P.DeliveryReplied(true))
  {
    forall v: nat | P.Holds(s.pool, v, fp) ensures v == w { OnlyHolder(s, w, v, fp); }
  }

  lemma JobRowActive(s: State, w: nat)
    requires Coherent(s) && w < |s.pool.workers| && s.pool.workers[w].Running?
    ensures ItemOf(s, w).fingerprint in s.rows && s.rows[ItemOf(s, w).fingerprint].active
  {
    assert JobLive(s.rows, ItemOf(s, w));
  }

  lemma FailureIsCounted(c: Settings, s: State, w: nat, now: real)
    requires Safe(s) && At(s, w, P.DeliveryReplied(false))
    ensures Apply(c, s, Delivered(w, now)) == Finish(s, w) && Safe(Finish(s, w))
    ensures Finish(s, w).pool.workers[w] == P.Counted(ItemOf(s, w))
  {
    StoppingSafe(s, P.Finish(w, true), w);
  }

  /** A delivery that did nothing and failed leaves the rows and the alerts as they were. */
  lemma FailedDelivery(c: Settings, s: State, w: nat, now: real) returns (s'': State)
    requires 1 <= c.maxPending && Safe(s) && At(s, w, P.Delivering)
    ensures s'' == Apply(c, Apply(c, s, ServeDelivery(w, false, false)), Delivered(w, now))
    ensures Safe(s'') && s''.rows == s.rows && s''.alerts == s.alerts
    ensures P.Holds(s''.pool, w, ItemOf(s, w).fingerprint) && !s''.pool.workers[w].Running?
  {
    var s' := Apply(c, s, ServeDelivery(w, false, false));
    assert s' == Resume(s, w, P.DeliveryReplied(false));
    ServeDeliverySafe(c, s, w, false, false);
    FailureIsCounted(c, s', w, now);
    s'' := Finish(s', w);
  }

  /** A firing delivery that took effect and was reported as a failure orphans its alert unless that was stored. */
  lemma UnreportedDelivery(c: Settings, s: State, w: nat, effect: bool, report: bool, now: real)
    requires 1 <= c.maxPending && Safe(s) && At(s, w, P.Delivering)
    ensures var s' := Apply(c, s, ServeDelivery(w, effect, report));
            Enabled(c, s', Delivered(w, now)) &&
            (NoOrphans(Apply(c, s', Delivered(w, now))) <==>
               (effect ==> report) || StoredLabels(s.rows, ItemOf(s, w).fingerprint) == Some(NewLabels(ItemOf(s, w))))
  {
    var s' := Apply(c, s, ServeDelivery(w, effect, report));
    var s'' := Apply(c, s', Delivered(w, now));
    NewLabelsKey(s, w);
    if effect ==> report {
      StepSafe(c, s, ServeDelivery(w, effect, report));
      StepSafe(c, s', Delivered(w, now));
      SafeHasNoOrphans(s'');
    } else {
      var id := NewLabels(ItemOf(s, w));
      var quiet := FailedDelivery(c, s, w, now);
      assert s'' == quiet.(alerts := quiet.alerts + {id});
      JobRowActive(s, w);
      DoneMarksNothing(quiet, w, id.key);
      AddedAlert(quiet, id);
    }
  }

  /** Without the alert it has just delivered, a worker can be stopped safely. */
  lemma StopWithoutItsAlert(c: Settings, s: State, w: nat, how: StopKind) returns (quiet: State)
    requires Safe(s) && At(s, w, P.DeliveryReplied(true))
    ensures var id := NewLabels(ItemOf(s, w));
            && quiet == PoolStep(s, StepOf(c, s, Stop(w, how))).(alerts := s.alerts - {id})
            && Safe(quiet)
            && P.Holds(quiet.pool, w, id.key) && !quiet.pool.workers[w].Running?
  {
    var id := NewLabels(ItemOf(s, w));
    var step := StepOf(c, s, Stop(w, how));
    NewLabelsKey(s, w);
    assert P.Holds(s.pool, w, id.key);
    var bare := s.(alerts := s.alerts - {id});
    assert Safe(bare);
    forall id' | id' in bare.alerts ensures id'.key != id.key {
      assert Owned(s.rows, s.pool, id');
    }
    PoolStepSafe(bare, step, w);
    quiet := PoolStep(bare, step);
  }

  /**
   A worker stopped after its delivery and before the acknowledgement leaves an
   orphan exactly when the alert is there and is not the stored one.
   */
  lemma StoppedBeforeMarking(c: Settings, s: State, w: nat, how: StopKind)
    requires 1 <= c.maxPending && Safe(s) && At(s, w, P.DeliveryReplied(true))
    ensures var id := NewLabels(ItemOf(s, w));
            NoOrphans(Apply(c, s, Stop(w, how))) <==> id !in s.alerts || StoredLabels(s.rows, id.key) == Some(id)
  {
    var id := NewLabels(ItemOf(s, w));
    var quiet := StopWithoutItsAlert(c, s, w, how);
    var s' := Apply(c, s, Stop(w, how));
    NewLabelsKey(s, w);
    JobRowActive(s, w);
    if id in s.alerts {
      DoneMarksNothing(quiet, w, id.key);
      assert s' == quiet.(alerts := quiet.alerts + {id});
      AddedAlert(quiet, id);
    } else {
      assert s' == quiet;
      SafeHasNoOrphans(quiet);
    }
  }

  /** A stop during the delivery leaves everything in order but the request that may still arrive. */
  lemma StopLeavesStray(c: Settings, s: State, w: nat, how: StopKind) returns (quiet: State)
    requires Safe(s) && At(s, w, P.Delivering)
    ensures Apply(c, s, Stop(w, how)) == quiet.(strays := s.strays + {NewLabels(ItemOf(s, w))})
    ensures Safe(quiet) && quiet.rows == s.rows && quiet.alerts == s.alerts
    ensures P.Holds(quiet.pool, w, ItemOf(s, w).fingerprint) && !quiet.pool.workers[w].Running?
  {
    var step := StepOf(c, s, Stop(w, how));
    assert P.Holds(s.pool, w, ItemOf(s, w).fingerprint);
    StoppingSafe(s, step, w);
    quiet := PoolStep(s, step);
  }

  /** The same for a worker stopped while its firing request is out, should the request arrive after all. */
  lemma StoppedWhileDelivering(c: Settings, s: State, w: nat, how: StopKind)
    requires 1 <= c.maxPending && Safe(s) && At(s, w, P.Delivering)
    ensures var id := NewLabels(ItemOf(s, w));
            var s' := Apply(c, s, Stop(w, how));
            Enabled(c, s', Arrive(id)) &&
            (NoOrphans(Apply(c, s', Arrive(id))) <==> StoredLabels(s.rows, id.key) == Some(id))
  {
    var id := NewLabels(ItemOf(s, w));
    var quiet := StopLeavesStray(c, s, w, how);
    NewLabelsKey(s, w);
    JobRowActive(s, w);
    DoneMarksNothing(quiet, w, id.key);
    AddedAlert(quiet, id);
    ArriveStep(c, quiet.(strays := s.strays + {id}), id);
  }

  /** A request given up as failed leaves everything in order but the request that may still arrive. */
  lemma FailureLeavesStray(c: Settings, s: State, w: nat, now: real) returns (s': State, quiet: State)
    requires Safe(s) && At(s, w, P.Delivering)
    ensures s' == Apply(c, s, LoseDelivery(w)) && Enabled(c, s', Delivered(w, now))
    ensures Apply(c, s', Delivered(w, now)) == quiet && NewLabels(ItemOf(s, w)) in quiet.strays
    ensures Safe(quiet) && quiet.rows == s.rows && quiet.alerts == s.alerts
    ensures P.Holds(quiet.pool, w, ItemOf(s, w).fingerprint) && !quiet.pool.workers[w].Running?
  {
    ReplySafe(s, w, false);
    s' := Resume(s, w, P.DeliveryReplied(false)).(strays := s.strays + {NewLabels(ItemOf(s, w))});
    assert s' == Apply(c, s, LoseDelivery(w));
    FailureIsCounted(c, s', w, now);
    quiet := Finish(s', w);
  }

  /** The same for a request that was given up as failed and arrives once the failure is counted. */
  lemma LostDelivery(c: Settings, s: State, w: nat, now: real)
    requires 1 <= c.maxPending && Safe(s) && At(s, w, P.Delivering)
    ensures var id := NewLabels(ItemOf(s, w));
            var s' := Apply(c, s, LoseDelivery(w));
            Enabled(c, s', Delivered(w, now)) && Enabled(c, Apply(c, s', Delivered(w, now)), Arrive(id)) &&
            (NoOrphans(Apply(c, Apply(c, s', Delivered(w, now)), Arrive(id))) <==> StoredAlready(s, id))
  {
    var id := NewLabels(ItemOf(s, w));
    var s', quiet := FailureLeavesStray(c, s, w, now);
    NewLabelsKey(s, w);
    JobRowActive(s, w);
    DoneMarksNothing(quiet, w, id.key);
    AddedAlert(quiet, id);
    ArriveStep(c, quiet, id);
  }

  /** A transition reported as done takes the job to its delivery, whatever it did to the alerts. */
  lemma TransitionRun(c: Settings, s: State, w: nat, effect: bool) returns (s2: State)
    requires At(s, w, P.Resolving) && LabelsChanged(ItemOf(s, w)) && Actionable(s, ItemOf(s, w))
    ensures Enabled(c, Apply(c, s, ServeTransition(w, effect, true)), Transitioned(w))
    ensures s2 == Apply(c, Apply(c, s, ServeTransition(w, effect, true)), Transitioned(w))
    ensures At(s2, w, P.Delivering) && ItemOf(s2, w) == ItemOf(s, w)
    ensures s2.alerts == if effect then s.alerts - {ItemOf(s, w).payload.firing.previous.value.labels} else s.alerts
  {
    var s1 := Apply(c, s, ServeTransition(w, effect, true));
    assert At(s1, w, P.ResolveReplied(true)) && ItemOf(s1, w) == ItemOf(s, w) && s1.rows == s.rows;
    s2 := Apply(c, s1, Transitioned(w));
  }

  /** If it did nothing, the delivery that follows makes a second alert exactly when the old one was there. */
  lemma {:induction false} UneffectiveTransition(c: Settings, s: State, w: nat) returns (s2: State)
    requires 1 <= c.maxPending && Safe(s) && At(s, w, P.Resolving)
    requires LabelsChanged(ItemOf(s, w)) && Actionable(s, ItemOf(s, w))
    ensures Enabled(c, Apply(c, s, ServeTransition(w, false, true)), Transitioned(w))
    ensures s2 == Apply(c, Apply(c, s, ServeTransition(w, false, true)), Transitioned(w)) && At(s2, w, P.Delivering)
    ensures NoOrphans(Apply(c, s2, ServeDelivery(w, true, true)))
            <==> ItemOf(s, w).payload.firing.previous.value.labels !in s.alerts
  {
    var prior, id := ItemOf(s, w).payload.firing.previous.value.labels, NewLabels(ItemOf(s, w));
    s2 := TransitionRun(c, s, w, false);
    var s3 := Apply(c, s2, ServeDelivery(w, true, true));
    assert s3.alerts == s.alerts + {id};
    if prior in s.alerts {
      assert prior.key == id.key by {
        assert JobLive(s.rows, ItemOf(s, w));
      }
      TwoAlerts(s3, prior, id);
    } else {
      assert Apply(c, s, ServeTransition(w, false, true)) == Apply(c, s, ServeTransition(w, true, true)) by {
        assert s.alerts - {prior} == s.alerts;
      }
      EffectiveTransition(c, s, w);
    }
  }

  lemma TwoAlerts(s: State, id: Labels, id': Labels)
    requires id in s.alerts && id' in s.alerts && id.key == id'.key && id != id'
    ensures !NoOrphans(s)
  {
  }

  lemma EffectiveTransition(c: Settings, s: State, w: nat)
    requires 1 <= c.maxPending && Safe(s) && At(s, w, P.Resolving) && Actionable(s, ItemOf(s, w))
    ensures var s2 := Apply(c, Apply(c, s, ServeTransition(w, true, true)), Transitioned(w));
            At(s2, w, P.Delivering) && NoOrphans(Apply(c, s2, ServeDelivery(w, true, true)))
  {
    var s1 := Apply(c, s, ServeTransition(w, true, true));
    ServeTransitionSafe(c, s, w, true, true);
    assert At(s1, w, P.ResolveReplied(true)) && ItemOf(s1, w) == ItemOf(s, w) && s1.rows == s.rows;
    DeliveryAfterTransition(c, s1, w);
  }

  lemma DeliveryAfterTransition(c: Settings, s: State, w: nat)
    requires Safe(s) && At(s, w, P.ResolveReplied(true)) && Actionable(s, ItemOf(s, w))
    ensures var s2 := Apply(c, s, Transitioned(w));
            At(s2, w, P.Delivering) && NoOrphans(Apply(c, s2, ServeDelivery(w, true, true)))
  {
    var s2 := Resume(s, w, P.Delivering);
    assert Apply(c, s, Transitioned(w)) == s2;
    ResumeSafe(s, w, P.Delivering);
    ServeDeliverySafe(c, s2, w, true, true);
    SafeHasNoOrphans(Apply(c, s2, ServeDelivery(w, true, true)));
  }

  /** A resolution reported as done that did nothing leaves an orphan exactly when there was an alert to resolve. */
  lemma UneffectiveResolution(c: Settings, s: State, minion: string, effect: bool, report: bool, now: real)
    requires 1 <= c.maxPending && Safe(s) && Enabled(c, s, ServeResolution(minion, effect, report))
    ensures var s' := Apply(c, s, ServeResolution(minion, effect, report));
            Enabled(c, s', FinishResolution(minion, now)) &&
            (NoOrphans(Apply(c, s', FinishResolution(minion, now))) <==>
               (report ==> effect) || s.tasks[minion].post.labels !in s.alerts)
  {
    var post := s.tasks[minion].post;
    var s' := Apply(c, s, ServeResolution(minion, effect, report));
    var s'' := Apply(c, s', FinishResolution(minion, now));
    assert TaskLive(s.rows, s.pool, minion, s.tasks[minion]);
    if report ==> effect {
      StepSafe(c, s, ServeResolution(minion, effect, report));
      StepSafe(c, s', FinishResolution(minion, now));
      SafeHasNoOrphans(s'');
    } else if post.labels !in s.alerts {
      assert s.alerts - {post.labels} == s.alerts;
      assert s' == Apply(c, s, ServeResolution(minion, true, report));
      StepSafe(c, s, ServeResolution(minion, true, report));
      StepSafe(c, s', FinishResolution(minion, now));
      SafeHasNoOrphans(s'');
    } else {
      assert post.labels.key == post.fp && post.labels in s''.alerts;
      assert !s''.rows[post.fp].active;
    }
  }

  // A restart of the process

  /** A restart leaves an orphan exactly when it cuts off an acknowledgement that would have changed what is stored. */
  lemma {:induction false} RestartOrphans(c: Settings, s: State)
    requires 1 <= c.maxPending && Safe(s)
    ensures NoOrphans(Apply(c, s, Restart)) <==> NothingUnmarked(s)
  {
    var s' := Apply(c, s, Restart);
    assert forall v: nat, id :: !AboutToMark(s'.pool, v, id);
    SafeHasNoOrphans(s);
    if NothingUnmarked(s) {
      forall id | id in s.alerts ensures StoredAlready(s, id) {
        assert Owned(s.rows, s.pool, id);
        if w: nat :| AboutToMark(s.pool, w, id) { assert NothingToMark(s, w); }
      }
      assert NoOrphans(s');
    } else {
      var w: nat :| !NothingToMark(s, w);
      assert NewLabels(ItemOf(s, w)) in s'.alerts;
    }
  }

  /** An alert that arrives when nobody is about to acknowledge anything is harmless only if it is the stored one. */
  lemma ArrivedOrphans(s: State, s': State, id: Labels)
    requires s'.rows == s.rows && s'.pool == s.pool && s'.alerts == s.alerts + {id}
    requires id.key in s.rows && s.rows[id.key].active && forall v: nat, x :: !AboutToMark(s.pool, v, x)
    ensures NoOrphans(s') <==> NoOrphans(s) && StoredAlready(s, id)
  {
    if NoOrphans(s') { assert id in s'.alerts; }
    if NoOrphans(s) && StoredAlready(s, id) {
      forall x | x in s.alerts && x.key == id.key ensures x == id { assert StoredAlready(s, x); }
    }
  }

  /** A restart keeps rows and alerts, and forgets who was about to acknowledge what. */
  lemma RestartKeeps(c: Settings, s: State, w: nat)
    requires At(s, w, P.Delivering)
    ensures var s' := Apply(c, s, Restart);
            && s'.rows == s.rows && s'.alerts == s.alerts && NewLabels(ItemOf(s, w)) in s'.strays
            && forall v: nat, x :: !AboutToMark(s'.pool, v, x)
  {
  }

  lemma ArriveStep(c: Settings, s: State, id: Labels)
    requires id in s.strays
    ensures Enabled(c, s, Arrive(id))
    ensures Apply(c, s, Arrive(id)) == s.(alerts := s.alerts + {id}, strays := s.strays - {id})
  {
  }

  /** The same for a firing request that was out at the restart, should it arrive afterwards. */
  lemma RestartWhileDelivering(c: Settings, s: State, w: nat)
    requires 1 <= c.maxPending && Safe(s) && At(s, w, P.Delivering)
    ensures var id, s' := NewLabels(ItemOf(s, w)), Apply(c, s, Restart);
            Enabled(c, s', Arrive(id)) &&
            (NoOrphans(Apply(c, s', Arrive(id))) <==> NothingUnmarked(s) && StoredAlready(s, id))
  {
    var id, s' := NewLabels(ItemOf(s, w)), Apply(c, s, Restart);
    RestartOrphans(c, s);
    RestartKeeps(c, s, w);
    ArriveStep(c, s', id);
    JobRowActive(s, w);
    NewLabelsKey(s, w);
    ArrivedOrphans(s', s'.(alerts := s'.alerts + {id}, strays := s'.strays - {id}), id);
  }
}
