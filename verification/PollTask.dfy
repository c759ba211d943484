/** What a poll task does at each of its steps, and what the surroundings do, told on the parts of the state. */
module PollTask {
  import opened Domain
  import opened Protocol
  import opened Coherence
  import Q = QueueModel
  import P = WorkerPool
  import S = StoreModel

  ghost predicate SameSurroundings(s: State, s': State) {
    s'.alerts == s.alerts && s'.strays == s.strays
  }

  ghost predicate OtherTasksKept(s: State, s': State, minion: string) {
    s'.tasks.Keys == s.tasks.Keys && forall m :: m in s.tasks && m != minion ==> s'.tasks[m] == s.tasks[m]
  }

  /** The row is resolved at this moment, if it was active, and no other row changes. */
  ghost predicate ResolvesRow(rows: S.Rows, rows': S.Rows, fp: Key, now: real) {
    && rows'.Keys == rows.Keys
    && (forall x :: x in rows && (x != fp || !rows[x].active) ==> rows'[x] == rows[x])
    && (fp in rows && rows[fp].active ==> rows'[fp] == rows[fp].(active := false, resolvedAt := Some(now)))
  }

  /** A reconcile starts a task that lists what the table reports about the minion's own anomalies. */
  lemma ReconcileDecides(c: Settings, s: State, e: Event)
    requires Allowed(c, s, e) && e.Reconcile?
    ensures var s', own := Apply(c, s, e), OfMinion(e.cycle, e.minion);
            && s'.pool == s.pool && SameSurroundings(s, s')
            && s'.tasks.Keys == s.tasks.Keys + {e.minion}
            && (forall m :: m in s.tasks ==> s'.tasks[m] == s.tasks[m])
            && var task := s'.tasks[e.minion];
               && task.post.NoPost?
               && (forall f :: f in task.firing <==> f in S.CycleFiring(c.store, s.rows, e.minion, own, e.now))
               && (forall f :: f in task.firing ==> f.anomaly in e.cycle && f.fingerprint.minion == e.minion)
               && (forall r :: r in task.resolved <==>
                     r in S.ResolvedSet(c.store, s.rows, e.minion, S.PreferMoreSevere(own).chosen))
  {
    var own := OfMinion(e.cycle, e.minion);
    forall f | f in S.CycleFiring(c.store, s.rows, e.minion, own, e.now)
      ensures f.anomaly in e.cycle && f.fingerprint.minion == e.minion
    {
      S.FiringIsActionable(c.store, s.rows, e.minion, own, e.now, f);
    }
  }

  /**
   The next resolved incident: left alone while a worker holds it; otherwise its
   pending job is withdrawn, and it is resolved at once if it was never delivered, or
   its resolution is sent.
   */
  lemma CancelDecides(c: Settings, s: State, minion: string, now: real)
    requires Coherent(s) && Enabled(c, s, CancelNext(minion, now))
    ensures var s', task := Apply(c, s, CancelNext(minion, now)), s.tasks[minion];
            var r := task.resolved[0];
            && SameSurroundings(s, s') && OtherTasksKept(s, s', minion) && s'.pool.workers == s.pool.workers
            && s'.pool.queue.inFlight == s.pool.queue.inFlight
            && s'.tasks[minion].firing == task.firing && s'.tasks[minion].resolved == task.resolved[1..]
            && if r.fingerprint in s.pool.queue.inFlight then
                 s'.tasks[minion].post.NoPost? && s'.rows == s.rows && s'.pool == s.pool
               else
                 && (forall x :: x in s'.pool.queue.pending <==>
                       x in s.pool.queue.pending && x.fingerprint != r.fingerprint)
                 && match r.payload
                    case None =>
                      s'.tasks[minion].post.NoPost? && ResolvesRow(s.rows, s'.rows, r.fingerprint, now)
                    case Some(payload) =>
                      s'.tasks[minion].post == Sent(r.fingerprint, payload.labels) && s'.rows == s.rows
  {
    var fp := s.tasks[minion].resolved[0].fingerprint;
    WithdrawnIsAbsent(s.pool, fp);
    Q.FindMember(s.pool.queue.pending, fp);
  }

  /** A resolution removes its alert exactly if it takes effect, whatever is reported. */
  lemma AnswerDecides(c: Settings, s: State, minion: string, effect: bool, report: bool)
    requires Enabled(c, s, ServeResolution(minion, effect, report))
    ensures var s', task := Apply(c, s, ServeResolution(minion, effect, report)), s.tasks[minion];
            && s'.rows == s.rows && s'.pool == s.pool && s'.strays == s.strays && OtherTasksKept(s, s', minion)
            && s'.tasks[minion] == task.(post := Replied(task.post.fp, report))
            && (forall id :: id in s'.alerts <==> id in s.alerts && !(effect && id == task.post.labels))
  {
  }

  /** The incident is resolved exactly if its resolution was reported as delivered. */
  lemma ConclusionDecides(c: Settings, s: State, minion: string, now: real)
    requires Enabled(c, s, FinishResolution(minion, now))
    ensures var s', task := Apply(c, s, FinishResolution(minion, now)), s.tasks[minion];
            && s'.pool == s.pool && SameSurroundings(s, s') && OtherTasksKept(s, s', minion)
            && s'.tasks[minion] == task.(post := NoPost)
            && if task.post.ok then ResolvesRow(s.rows, s'.rows, task.post.fp, now) else s'.rows == s.rows
  {
  }

  /** Firings are queued in their order, only once nothing is left to resolve, with their severity and the time. */
  lemma QueueingDecides(c: Settings, s: State, minion: string, now: real)
    requires Enabled(c, s, EnqueueNext(minion, now))
    ensures var s', task := Apply(c, s, EnqueueNext(minion, now)), s.tasks[minion];
            && task.resolved == [] && task.post.NoPost? && task.firing != []
            && s'.rows == s.rows && SameSurroundings(s, s') && OtherTasksKept(s, s', minion)
            && s'.tasks[minion] == Task([], NoPost, task.firing[1..])
            && s'.pool.workers == s.pool.workers
            && var f := task.firing[0];
               s'.pool.queue
               == Q.Enqueue(s.pool.queue, f.fingerprint, f.anomaly.severity, Work(f, now)).0
  {
  }

  // The surroundings

  /** What a served request does to the alerts, whatever is reported of it. */
  lemma RequestsTakeEffect(c: Settings, s: State, w: nat, effect: bool, report: bool)
    ensures At(s, w, P.Resolving) ==>
              var s', previous := Apply(c, s, ServeTransition(w, effect, report)), ItemOf(s, w).payload.firing.previous;
              && At(s', w, P.ResolveReplied(report)) && ItemOf(s', w) == ItemOf(s, w)
              && s'.rows == s.rows && s'.tasks == s.tasks && s'.strays == s.strays
              && forall id :: id in s'.alerts <==>
                   id in s.alerts && !(effect && previous.Some? && id == previous.value.labels)
    ensures At(s, w, P.Delivering) ==>
              var s', f := Apply(c, s, ServeDelivery(w, effect, report)), ItemOf(s, w).payload.firing;
              && At(s', w, P.DeliveryReplied(report)) && ItemOf(s', w) == ItemOf(s, w)
              && s'.rows == s.rows && s'.tasks == s.tasks && s'.strays == s.strays
              && forall id :: id in s'.alerts <==>
                   id in s.alerts || (effect && id == Labels(f.anomaly.IdentityKey(), f.anomaly.severity))
  {
  }

  /** A delivery that is given up, or whose worker stops, may still arrive; nothing else may. */
  lemma LateRequests(c: Settings, s: State, w: nat, how: StopKind)
    requires w < |s.pool.workers| && s.pool.workers[w].Running?
    ensures var f := ItemOf(s, w).payload.firing;
            var sent := Labels(f.anomaly.IdentityKey(), f.anomaly.severity);
            && (forall id :: id in Apply(c, s, Stop(w, how)).strays <==>
                  id in s.strays || (At(s, w, P.Delivering) && id == sent))
            && (At(s, w, P.Delivering) ==>
                  var s' := Apply(c, s, LoseDelivery(w));
                  && At(s', w, P.DeliveryReplied(false)) && ItemOf(s', w) == ItemOf(s, w)
                  && s'.rows == s.rows && s'.tasks == s.tasks && s'.alerts == s.alerts
                  && forall id :: id in s'.strays <==> id in s.strays || id == sent)
  {
  }

  /** A request arrives once, and an alert may expire; nothing else changes. */
  lemma ArrivalAndExpiry(c: Settings, s: State, labels: Labels)
    ensures labels in s.strays ==>
              var s' := Apply(c, s, Arrive(labels));
              && s'.rows == s.rows && s'.pool == s.pool && s'.tasks == s.tasks
              && (forall id :: id in s'.alerts <==> id in s.alerts || id == labels)
              && (forall id :: id in s'.strays <==> id in s.strays && id != labels)
    ensures var s' := Apply(c, s, Expire(labels));
            && s'.rows == s.rows && s'.pool == s.pool && s'.tasks == s.tasks && s'.strays == s.strays
            && forall id :: id in s'.alerts <==> id in s.alerts && id != labels
  {
  }

  /** A restart keeps the table and the alerts and forgets tasks, queue and workers; requests that are out stay out. */
  lemma RestartForgets(c: Settings, s: State)
    ensures var s' := Apply(c, s, Restart);
            && s'.rows == s.rows && s'.alerts == s.alerts && s'.tasks == map[]
            && s'.pool.queue.pending == [] && s'.pool.queue.inFlight == {} && s'.pool.queue.accepting
            && |s'.pool.workers| == c.workers && (forall w :: 0 <= w < c.workers ==> s'.pool.workers[w].Idle?)
            && forall id :: id in s'.strays <==>
                 id in s.strays || exists w: nat :: At(s, w, P.Delivering) && id == NewLabels(ItemOf(s, w))
  {
    forall w: nat | At(s, w, P.Delivering) ensures NewLabels(ItemOf(s, w)) in Apply(c, s, Restart).strays {
    }
  }

  lemma TaskEnds(c: Settings, s: State, minion: string)
    requires minion in s.tasks
    ensures var s' := Apply(c, s, EndTask(minion));
            && s'.rows == s.rows && s'.pool == s.pool && SameSurroundings(s, s')
            && s'.tasks.Keys == s.tasks.Keys - {minion} && forall m :: m in s'.tasks ==> s'.tasks[m] == s.tasks[m]
  {
  }
}
