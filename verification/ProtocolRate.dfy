/**
 The emission rate limit in the composed protocol: over runs of poll tasks and
 workers, acknowledgements of one generation that are less than a cooldown apart
 each raise the acknowledged severity.
 */
module ProtocolRate {
  import opened Domain
  import opened Protocol
  import opened Coherence
  import Q = QueueModel
  import P = WorkerPool
  import R = RateLimit
  import S = StoreModel

  /** The incident may be notified again: never acknowledged, escalated, or past the cooldown. */
  predicate Due(c: S.Config, rows: S.Rows, f: Firing, clock: real) {
    f.fingerprint in rows ==>
      || Rank(f.anomaly.severity) > S.EmittedRank(rows[f.fingerprint])
      || S.CooldownElapsed(c, rows[f.fingerprint], clock)
  }

  ghost predicate JobsDue(c: S.Config, rows: S.Rows, pool: P.Pool, clock: real) {
    && (forall x :: x in pool.queue.pending ==> Due(c, rows, x.payload.firing, clock))
    && (forall w :: 0 <= w < |pool.workers| && pool.workers[w].Running? ==>
          Due(c, rows, pool.workers[w].item.payload.firing, clock))
  }

  ghost predicate TaskDue(c: S.Config, rows: S.Rows, inFlight: set<Key>, t: Task, clock: real) {
    forall f :: f in t.firing && f.fingerprint !in inFlight ==> Due(c, rows, f, clock)
  }

  ghost predicate TasksDue(c: S.Config, s: State, clock: real) {
    forall minion :: minion in s.tasks ==> TaskDue(c, s.rows, s.pool.queue.inFlight, s.tasks[minion], clock)
  }

  ghost predicate AllDue(c: S.Config, s: State, clock: real) {
    JobsDue(c, s.rows, s.pool, clock) && TasksDue(c, s, clock)
  }

  // The clock, and the hypothesis about releases

  predicate Timed(e: Event) {
    e.Reconcile? || e.Delivered?
  }

  function ClockAfter(e: Event, clock: real): real {
    if Timed(e) then e.now else clock
  }

  function ClockAfterRun(events: seq<Event>, clock: real): real
    decreases |events|
  {
    if events == [] then clock else ClockAfterRun(events[1..], ClockAfter(events[0], clock))
  }

  /** The clock does not run backwards. */
  predicate InOrder(e: Event, clock: real) {
    Timed(e) ==> clock <= e.now
  }

  ghost predicate TimedRun(events: seq<Event>, clock: real)
    decreases |events|
  {
    events == [] || (InOrder(events[0], clock) && TimedRun(events[1..], ClockAfter(events[0], clock)))
  }

  /**
   The clock does not run backwards, and a job is released between its minion's
   reconcile and the enqueueing only if what was read is due all the same.
   */
  ghost predicate Prompt(c: Settings, s: State, e: Event, clock: real) {
    && InOrder(e, clock)
    && (e.LetGo? && P.Enabled(s.pool, P.LetGo(e.w)) ==>
          UnreadDue(c.store, s, s.pool.workers[e.w].item.fingerprint, clock))
  }

  ghost predicate UnreadDue(c: S.Config, s: State, fp: Key, clock: real) {
    forall m :: m in s.tasks ==>
      forall f :: f in s.tasks[m].firing && f.fingerprint == fp ==> Due(c, s.rows, f, clock)
  }

  ghost predicate PromptRun(c: Settings, s: State, events: seq<Event>, clock: real)
    decreases |events|
  {
    events == [] ||
    (Allowed(c, s, events[0]) && Prompt(c, s, events[0], clock)
     && PromptRun(c, Apply(c, s, events[0]), events[1..], ClockAfter(events[0], clock)))
  }

  // Every queued or running job is due

  predicate Acknowledging(s: State, e: Event) {
    e.Delivered? && At(s, e.w, P.DeliveryReplied(true))
  }

  /** Each row keeps its acknowledgement or has none. */
  ghost predicate KeepsAcks(rows: S.Rows, rows': S.Rows) {
    forall fp :: fp in rows' && rows'[fp].lastEmitted.Some? ==>
      && fp in rows && rows'[fp].lastEmitted == rows[fp].lastEmitted
      && rows'[fp].lastEmittedSeverity == rows[fp].lastEmittedSeverity
  }

  lemma StillDue(c: S.Config, rows: S.Rows, rows': S.Rows, f: Firing, clock: real, later: real)
    requires KeepsAcks(rows, rows') && clock <= later && Due(c, rows, f, clock)
    ensures Due(c, rows', f, later)
  {
  }

  lemma ReconcileKeepsAcks(rows: S.Rows, minion: string, cycle: seq<Anomaly>, now: real)
    ensures KeepsAcks(rows, S.Reconcile(rows, minion, OfMinion(cycle, minion), now))
  {
    var rows' := S.Reconcile(rows, minion, OfMinion(cycle, minion), now);
    forall fp | fp in rows' && rows'[fp].lastEmitted.Some?
      ensures fp in rows && rows'[fp].lastEmitted == rows[fp].lastEmitted
      ensures fp in rows && rows'[fp].lastEmittedSeverity == rows[fp].lastEmittedSeverity
    {
      S.ReconcileGenerations(rows, minion, OfMinion(cycle, minion), now, fp);
    }
  }

  lemma JobsStillDue(c: S.Config, rows: S.Rows, rows': S.Rows, pool: P.Pool, clock: real, later: real)
    requires KeepsAcks(rows, rows') && clock <= later && JobsDue(c, rows, pool, clock)
    ensures JobsDue(c, rows', pool, later)
  {
    forall x | x in pool.queue.pending ensures Due(c, rows', x.payload.firing, later) {
      StillDue(c, rows, rows', x.payload.firing, clock, later);
    }
    forall w | 0 <= w < |pool.workers| && pool.workers[w].Running?
      ensures Due(c, rows', pool.workers[w].item.payload.firing, later)
    {
      StillDue(c, rows, rows', pool.workers[w].item.payload.firing, clock, later);
    }
  }

  lemma TaskStillDue(
    c: S.Config, rows: S.Rows, rows': S.Rows, inFlight: set<Key>, t: Task, clock: real, later: real)
    requires KeepsAcks(rows, rows') && clock <= later && TaskDue(c, rows, inFlight, t, clock)
    ensures TaskDue(c, rows', inFlight, t, later)
  {
    forall f | f in t.firing && f.fingerprint !in inFlight ensures Due(c, rows', f, later) {
      StillDue(c, rows, rows', f, clock, later);
    }
  }

  /** What a reconcile reports is due at that moment. */
  lemma ReportedIsDue(c: Settings, s: State, e: Event)
    requires Coherent(s) && e.Reconcile? && Allowed(c, s, e)
    ensures var s' := Begin(c, s, e); forall f :: f in s'.tasks[e.minion].firing ==> Due(c.store, s'.rows, f, e.now)
  {
    var s' := Begin(c, s, e);
    var detected := OfMinion(e.cycle, e.minion);
    var selection := S.PreferMoreSevere(detected);
    forall f | f in s'.tasks[e.minion].firing ensures Due(c.store, s'.rows, f, e.now) {
      S.SelectionWellFormed(detected);
      S.FiringListContents(c.store, s.rows, e.minion, selection.order, selection.chosen, e.now);
      S.ReconcileAt(s.rows, e.minion, detected, e.now, f.fingerprint);
    }
  }

  lemma BeginDue(c: Settings, s: State, e: Event, clock: real)
    requires Coherent(s) && AllDue(c.store, s, clock) && e.Reconcile? && Allowed(c, s, e) && clock <= e.now
    ensures AllDue(c.store, Begin(c, s, e), e.now)
  {
    var s' := Begin(c, s, e);
    ReconcileKeepsAcks(s.rows, e.minion, e.cycle, e.now);
    JobsStillDue(c.store, s.rows, s'.rows, s.pool, clock, e.now);
    ReportedIsDue(c, s, e);
    forall m | m in s'.tasks ensures TaskDue(c.store, s'.rows, s'.pool.queue.inFlight, s'.tasks[m], e.now) {
      if m != e.minion {
        TaskStillDue(c.store, s.rows, s'.rows, s.pool.queue.inFlight, s.tasks[m], clock, e.now);
      }
    }
  }

  /** The jobs that are left, and the tasks, whose firings a resolution does not touch. */
  lemma ResolvingDue(c: S.Config, s: State, s': State, clock: real)
    requires AllDue(c, s, clock) && KeepsAcks(s.rows, s'.rows)
    requires s'.pool.workers == s.pool.workers && s'.pool.queue.inFlight == s.pool.queue.inFlight
    requires forall x :: x in s'.pool.queue.pending ==> x in s.pool.queue.pending
    requires s'.tasks.Keys == s.tasks.Keys && forall m :: m in s.tasks ==> s'.tasks[m].firing == s.tasks[m].firing
    ensures AllDue(c, s', clock)
  {
    JobsStillDue(c, s.rows, s'.rows, s.pool, clock, clock);
    forall m | m in s'.tasks ensures TaskDue(c, s'.rows, s'.pool.queue.inFlight, s'.tasks[m], clock) {
      TaskStillDue(c, s.rows, s'.rows, s.pool.queue.inFlight, s.tasks[m], clock, clock);
    }
  }

  lemma CancelDue(c: S.Config, s: State, minion: string, now: real, clock: real)
    requires Coherent(s) && AllDue(c, s, clock) && minion in s.tasks && s.tasks[minion].resolved != []
    ensures AllDue(c, CancelOne(s, minion, now), clock)
  {
    WithdrawnIsAbsent(s.pool, s.tasks[minion].resolved[0].fingerprint);
    ResolvingDue(c, s, CancelOne(s, minion, now), clock);
  }

  lemma ConcludeDue(c: S.Config, s: State, minion: string, now: real, clock: real)
    requires AllDue(c, s, clock) && minion in s.tasks && s.tasks[minion].post.Replied?
    ensures AllDue(c, ConcludeResolution(s, minion, now), clock)
  {
    ResolvingDue(c, s, ConcludeResolution(s, minion, now), clock);
  }

  lemma EnqueueDue(c: Settings, s: State, minion: string, now: real, clock: real)
    requires Coherent(s) && AllDue(c.store, s, clock) && Enabled(c, s, EnqueueNext(minion, now))
    ensures AllDue(c.store, EnqueueOne(s, minion, now), clock)
  {
    var s' := EnqueueOne(s, minion, now);
    var firing := s.tasks[minion].firing[0];
    var work := Work(firing, now);
    assert firing in s.tasks[minion].firing;
    assert TaskDue(c.store, s.rows, s.pool.queue.inFlight, s.tasks[minion], clock);
    Q.EnqueueItems(s.pool.queue, firing.fingerprint, firing.anomaly.severity, work);
    forall x | x in s'.pool.queue.pending ensures Due(c.store, s'.rows, x.payload.firing, clock) {
      if x !in s.pool.queue.pending {
        assert x.fingerprint == firing.fingerprint && x.payload == work;
      }
    }
    forall m | m in s'.tasks ensures TaskDue(c.store, s'.rows, s'.pool.queue.inFlight, s'.tasks[m], clock) {
      assert TaskDue(c.store, s.rows, s.pool.queue.inFlight, s.tasks[m], clock);
    }
  }

  lemma PoolStepDue(c: Settings, s: State, step: P.Step, clock: real)
    requires Coherent(s) && AllDue(c.store, s, clock) && P.Enabled(s.pool, step) && !step.Offer? && !step.Withdraw?
    requires step.LetGo? ==> UnreadDue(c.store, s, s.pool.workers[step.w].item.fingerprint, clock)
    ensures JobsDue(c.store, s.rows, P.Apply(s.pool, step), clock)
    ensures forall m :: m in s.tasks ==>
              TaskDue(c.store, s.rows, P.Apply(s.pool, step).queue.inFlight, s.tasks[m], clock)
  {
    if step.Take? {
      Q.PopValid(s.pool.queue);
      assert s.pool.queue.pending[0] in s.pool.queue.pending;
    }
    forall m | m in s.tasks
      ensures TaskDue(c.store, s.rows, P.Apply(s.pool, step).queue.inFlight, s.tasks[m], clock)
    {
      assert TaskDue(c.store, s.rows, s.pool.queue.inFlight, s.tasks[m], clock);
    }
  }

  lemma OnlyLetGoReleases(c: Settings, s: State, e: Event)
    requires IsPoolEvent(e) && Enabled(c, s, e)
    ensures StepOf(c, s, e).LetGo? ==> e == LetGo(StepOf(c, s, e).w)
  {
  }

  lemma PoolEventDue(c: Settings, s: State, e: Event, clock: real)
    requires Coherent(s) && AllDue(c.store, s, clock) && IsPoolEvent(e) && Enabled(c, s, e) && Prompt(c, s, e, clock)
    ensures AllDue(c.store, Apply(c, s, e), clock)
  {
    PoolEventIsPoolStep(c, s, e);
    OnlyLetGoReleases(c, s, e);
    PoolStepDue(c, s, StepOf(c, s, e), clock);
    SameDue(c.store, s, P.Apply(s.pool, StepOf(c, s, e)), Apply(c, s, e), clock);
  }

  lemma SameDue(c: S.Config, s: State, pool: P.Pool, s': State, clock: real)
    requires JobsDue(c, s.rows, pool, clock)
    requires forall m :: m in s.tasks ==> TaskDue(c, s.rows, pool.queue.inFlight, s.tasks[m], clock)
    requires s'.rows == s.rows && s'.tasks == s.tasks && s'.pool == pool
    ensures AllDue(c, s', clock)
  {
  }

  /** An acknowledgement changes the one row that neither a queued job nor another running one refers to. */
  lemma AcknowledgedDue(c: Settings, s: State, w: nat, now: real, clock: real)
    requires Coherent(s) && AllDue(c.store, s, clock) && clock <= now && At(s, w, P.DeliveryReplied(true))
    ensures AllDue(c.store, Apply(c, s, Delivered(w, now)), now)
  {
    var s', fp := Apply(c, s, Delivered(w, now)), ItemOf(s, w).fingerprint;
    AcknowledgementReachesItsRow(c, s, w, now);
    assert P.Holds(s.pool, w, fp);
    forall x | x in s'.pool.queue.pending ensures Due(c.store, s'.rows, x.payload.firing, now) {
      assert JobLive(s.rows, x) && Due(c.store, s.rows, x.payload.firing, clock);
    }
    forall v: nat | v < |s'.pool.workers| && s'.pool.workers[v].Running?
      ensures Due(c.store, s'.rows, s'.pool.workers[v].item.payload.firing, now)
    {
      assert P.Holds(s.pool, v, ItemOf(s, v).fingerprint) && JobLive(s.rows, ItemOf(s, v));
      assert Due(c.store, s.rows, ItemOf(s, v).payload.firing, clock);
    }
    forall m | m in s'.tasks ensures TaskDue(c.store, s'.rows, s'.pool.queue.inFlight, s'.tasks[m], now) {
      assert TaskDue(c.store, s.rows, s.pool.queue.inFlight, s.tasks[m], clock);
    }
  }

  lemma UnacknowledgedDue(c: Settings, s: State, w: nat, now: real, clock: real)
    requires Coherent(s) && AllDue(c.store, s, clock) && clock <= now && At(s, w, P.DeliveryReplied(false))
    ensures AllDue(c.store, Apply(c, s, Delivered(w, now)), now)
  {
    PoolStepDue(c, s, P.Finish(w, true), clock);
    var pool := P.Apply(s.pool, P.Finish(w, true));
    JobsStillDue(c.store, s.rows, s.rows, pool, clock, now);
    forall m | m in s.tasks ensures TaskDue(c.store, s.rows, pool.queue.inFlight, s.tasks[m], now) {
      TaskStillDue(c.store, s.rows, s.rows, pool.queue.inFlight, s.tasks[m], clock, now);
    }
  }

  lemma AnswerDue(c: S.Config, s: State, minion: string, effect: bool, report: bool, clock: real)
    requires AllDue(c, s, clock) && minion in s.tasks && s.tasks[minion].post.Sent?
    ensures AllDue(c, AnswerResolution(s, minion, effect, report), clock)
  {
    ResolvingDue(c, s, AnswerResolution(s, minion, effect, report), clock);
  }

  lemma StepDue(c: Settings, s: State, e: Event, clock: real)
    requires Coherent(s) && AllDue(c.store, s, clock) && Allowed(c, s, e) && Prompt(c, s, e, clock)
    ensures AllDue(c.store, Apply(c, s, e), ClockAfter(e, clock))
  {
    if e.Reconcile? {
      BeginDue(c, s, e, clock);
    } else if e.CancelNext? {
      CancelDue(c.store, s, e.minion, e.now, clock);
    } else if e.ServeResolution? {
      AnswerDue(c.store, s, e.minion, e.effect, e.report, clock);
    } else if e.FinishResolution? {
      ConcludeDue(c.store, s, e.minion, e.now, clock);
    } else if e.EnqueueNext? {
      EnqueueDue(c, s, e.minion, e.now, clock);
    } else if Acknowledging(s, e) {
      AcknowledgedDue(c, s, e.w, e.now, clock);
    } else if e.Delivered? {
      UnacknowledgedDue(c, s, e.w, e.now, clock);
    } else if IsPoolEvent(e) {
      PoolEventDue(c, s, e, clock);
    }
  }

  /** In every state of every prompt run, whatever is queued or running is due. */
  lemma {:induction false} RunDue(c: Settings, s: State, events: seq<Event>, clock: real)
    requires 1 <= c.maxPending && Coherent(s) && AllDue(c.store, s, clock) && PromptRun(c, s, events, clock)
    ensures IsRun(c, s, events) && Coherent(After(c, s, events))
    ensures AllDue(c.store, After(c, s, events), ClockAfterRun(events, clock))
    decreases |events|
  {
    if events != [] {
      StepDue(c, s, events[0], clock);
      StepCoherent(c, s, events[0]);
      RunDue(c, Apply(c, s, events[0]), events[1..], ClockAfter(events[0], clock));
    }
  }

  // The acknowledgements of one incident

  predicate Acks(s: State, e: Event, fp: Key) {
    Acknowledging(s, e) && ItemOf(s, e.w).fingerprint == fp
  }

  /** Time and stored severity of an acknowledgement. */
  function AckOf(c: Settings, s: State, e: Event, fp: Key): R.Ack
    requires Enabled(c, s, e) && Acks(s, e, fp)
  {
    var rows := Apply(c, s, e).rows;
    var shown := fp in rows && rows[fp].lastEmittedSeverity.Some?;
    R.Ack(e.now, if shown then rows[fp].lastEmittedSeverity.value else Other(""))
  }

  ghost function AcksOf(c: Settings, s: State, events: seq<Event>, fp: Key): seq<R.Ack>
    requires IsRun(c, s, events)
    decreases |events|
  {
    if events == [] then
      []
    else
      (if Acks(s, events[0], fp) then [AckOf(c, s, events[0], fp)] else [])
      + AcksOf(c, Apply(c, s, events[0]), events[1..], fp)
  }

  /** A reconcile that starts a new generation of the incident. */
  ghost predicate Renews(s: State, e: Event, fp: Key) {
    && e.Reconcile? && e.minion == fp.minion && fp in S.PreferMoreSevere(OfMinion(e.cycle, e.minion)).chosen
    && !S.IsActive(s.rows, e.minion, fp)
  }

  ghost predicate OneGeneration(c: Settings, s: State, events: seq<Event>, fp: Key)
    requires IsRun(c, s, events)
    decreases |events|
  {
    events == [] || (!Renews(s, events[0], fp) && OneGeneration(c, Apply(c, s, events[0]), events[1..], fp))
  }

  /** The acknowledgement that the row shows. */
  ghost predicate Shows(rows: S.Rows, fp: Key, a: R.Ack) {
    fp in rows && rows[fp].lastEmitted == Some(a.at) && S.EmittedRank(rows[fp]) == Rank(a.severity)
  }

  /** Acknowledging a due job: the row shows it, and it is spaced from the one the row showed before. */
  lemma AckIsSpaced(c: Settings, s: State, e: Event, fp: Key, clock: real)
    requires Coherent(s) && AllDue(c.store, s, clock) && Allowed(c, s, e) && Acks(s, e, fp) && clock <= e.now
    ensures Shows(Apply(c, s, e).rows, fp, AckOf(c, s, e, fp))
    ensures forall a :: Shows(s.rows, fp, a) ==> R.Spaced(c.store, a, AckOf(c, s, e, fp))
  {
    AcknowledgementReachesItsRow(c, s, e.w, e.now);
    assert JobLive(s.rows, ItemOf(s, e.w));
    assert Due(c.store, s.rows, ItemOf(s, e.w).payload.firing, clock);
  }

  /** Any other event of the same generation keeps what the row shows. */
  lemma OthersKeepShown(c: Settings, s: State, e: Event, fp: Key, a: R.Ack)
    requires Coherent(s) && Allowed(c, s, e) && !Acks(s, e, fp) && !Renews(s, e, fp) && Shows(s.rows, fp, a)
    ensures Shows(Apply(c, s, e).rows, fp, a)
  {
    if e.Reconcile? {
      var detected := OfMinion(e.cycle, e.minion);
      S.ReconcileAt(s.rows, e.minion, detected, e.now, fp);
      S.ReconcileGenerations(s.rows, e.minion, detected, e.now, fp);
      S.ChosenIsOfMinion(e.cycle, e.minion, fp);
    } else if Acknowledging(s, e) {
      AcknowledgementReachesItsRow(c, s, e.w, e.now);
    }
  }

  lemma {:induction false} FirstAckIsSpaced(c: Settings, s: State, events: seq<Event>, fp: Key, clock: real, a: R.Ack)
    requires 1 <= c.maxPending && Coherent(s) && AllDue(c.store, s, clock)
    requires IsRun(c, s, events) && PromptRun(c, s, events, clock) && OneGeneration(c, s, events, fp)
    requires Shows(s.rows, fp, a) && AcksOf(c, s, events, fp) != []
    ensures R.Spaced(c.store, a, AcksOf(c, s, events, fp)[0])
    decreases |events|
  {
    var e := events[0];
    if Acks(s, e, fp) {
      AckIsSpaced(c, s, e, fp, clock);
    } else {
      OthersKeepShown(c, s, e, fp, a);
      StepDue(c, s, e, clock);
      StepCoherent(c, s, e);
      FirstAckIsSpaced(c, Apply(c, s, e), events[1..], fp, ClockAfter(e, clock), a);
    }
  }

  lemma {:induction false} AcksAreSpaced(c: Settings, s: State, events: seq<Event>, fp: Key, clock: real)
    requires 1 <= c.maxPending && Coherent(s) && AllDue(c.store, s, clock)
    requires IsRun(c, s, events) && PromptRun(c, s, events, clock) && OneGeneration(c, s, events, fp)
    ensures R.AllSpaced(c.store, AcksOf(c, s, events, fp)) && R.InTimeOrder(AcksOf(c, s, events, fp), clock)
    decreases |events|
  {
    if events != [] {
      var e, next, now := events[0], Apply(c, s, events[0]), ClockAfter(events[0], clock);
      StepDue(c, s, e, clock);
      StepCoherent(c, s, e);
      AcksAreSpaced(c, next, events[1..], fp, now);
      var rest := AcksOf(c, next, events[1..], fp);
      if Acks(s, e, fp) {
        var ack := AckOf(c, s, e, fp);
        AckIsSpaced(c, s, e, fp, clock);
        if rest != [] { FirstAckIsSpaced(c, next, events[1..], fp, now, ack); }
        R.PrependInOrder(ack, rest, clock);
        PrependSpaced(c.store, ack, rest);
        assert AcksOf(c, s, events, fp) == [ack] + rest;
      } else {
        assert AcksOf(c, s, events, fp) == rest;
      }
    }
  }

  lemma PrependSpaced(c: S.Config, ack: R.Ack, acks: seq<R.Ack>)
    requires R.AllSpaced(c, acks) && (acks != [] ==> R.Spaced(c, ack, acks[0]))
    ensures R.AllSpaced(c, [ack] + acks)
  {
  }

  /**
   Over every prompt run of the whole protocol: within one generation, any window
   shorter than the cooldown holds at most three acknowledged firings of an
   incident, or four if the first was stored with a severity outside the known three.
   */
  lemma {:induction false} AtMostThreeAcksInARun(
    c: Settings, before: seq<Event>, events: seq<Event>, clock: real, fp: Key, i: nat, j: nat)
    requires 1 <= c.maxPending && PromptRun(c, Initial(c), before, clock) && IsRun(c, Initial(c), before)
    requires var s := After(c, Initial(c), before);
             && PromptRun(c, s, events, ClockAfterRun(before, clock)) && IsRun(c, s, events)
             && OneGeneration(c, s, events, fp)
             && i <= j < |AcksOf(c, s, events, fp)|
             && AcksOf(c, s, events, fp)[j].at - AcksOf(c, s, events, fp)[i].at < c.store.cooldownSeconds as real
    ensures var first := AcksOf(c, After(c, Initial(c), before), events, fp)[i].severity;
            j - i + 1 <= if first.Other? then 4 else 3
  {
    var s := After(c, Initial(c), before);
    InitialCoherent(c);
    RunDue(c, Initial(c), before, clock);
    AcksAreSpaced(c, s, events, fp, ClockAfterRun(before, clock));
    R.SpacedAcksEscalate(c.store, AcksOf(c, s, events, fp), ClockAfterRun(before, clock), i, j);
  }
}
