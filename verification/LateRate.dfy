/**
 The rate limit when jobs may be released at any moment. What a poll task listed
 may then be out of date by one acknowledgement when it is queued, but by no more
 than one, so a window still holds a bounded number of them.
 */
module LateRate {
  import opened Domain
  import opened Protocol
  import opened Coherence
  import opened ProtocolRate
  import Q = QueueModel
  import P = WorkerPool
  import R = RateLimit
  import S = StoreModel

  /** A queued or running job of the incident carries this firing. */
  ghost predicate Claims(pool: P.Pool, fp: Key, f: Firing) {
    || (exists x :: x in pool.queue.pending && x.fingerprint == fp && x.payload.firing == f)
    || (exists w: nat :: Runs(pool, w, fp, f))
  }

  predicate Runs(pool: P.Pool, w: nat, fp: Key, f: Firing) {
    && w < |pool.workers| && pool.workers[w].Running?
    && pool.workers[w].item.fingerprint == fp && pool.workers[w].item.payload.firing == f
  }

  ghost predicate Unclaimed(pool: P.Pool, fp: Key) {
    forall f :: !Claims(pool, fp, f)
  }

  /** Due now, or in the table as it was before the incident's last acknowledgement. */
  predicate DueOrWas(c: S.Config, rows: S.Rows, before: S.Rows, f: Firing, clock: real) {
    Due(c, rows, f, clock) || Due(c, before, f, clock)
  }

  /** What is listed is due, unless no job of the incident is left that could be acknowledged. */
  ghost predicate ListedFair(c: S.Config, s: State, before: S.Rows, fp: Key, t: Task, clock: real) {
    && (forall f :: f in t.firing && f.fingerprint == fp ==>
          Due(c, s.rows, f, clock) || (Due(c, before, f, clock) && Unclaimed(s.pool, fp)))
    && S.DistinctFirings(t.firing)
  }

  /** `before` is the table before the last acknowledgement of the incident. */
  ghost predicate Fair(c: S.Config, s: State, before: S.Rows, fp: Key, clock: real) {
    && (forall f :: Claims(s.pool, fp, f) ==> DueOrWas(c, s.rows, before, f, clock))
    && (forall m :: m in s.tasks ==> ListedFair(c, s, before, fp, s.tasks[m], clock))
  }

  function BeforeAfter(s: State, e: Event, fp: Key, before: S.Rows): S.Rows {
    if Acks(s, e, fp) then s.rows else before
  }

  // Events that add no job

  lemma StepClaims(p: P.Pool, step: P.Step, fp: Key, f: Firing)
    requires P.PoolValid(p) && P.Enabled(p, step) && !step.Offer? && Claims(P.Apply(p, step), fp, f)
    ensures Claims(p, fp, f)
  {
    var p' := P.Apply(p, step);
    if step.Withdraw? {
      Q.CancelValid(p.queue, step.fp);
    } else if step.Take? {
      Q.PopValid(p.queue);
    }
    if w: nat :| Runs(p', w, fp, f) {
      if step.Take? && step.w == w {
        assert p.queue.pending[0] in p.queue.pending;
      } else {
        assert Runs(p, w, fp, f);
      }
    }
  }

  ghost predicate KeepsAck(rows: S.Rows, rows': S.Rows, fp: Key) {
    fp in rows' && rows'[fp].lastEmitted.Some? ==>
      && fp in rows && rows'[fp].lastEmitted == rows[fp].lastEmitted
      && rows'[fp].lastEmittedSeverity == rows[fp].lastEmittedSeverity
  }

  ghost predicate NoNewClaims(p: P.Pool, p': P.Pool, fp: Key) {
    forall f :: Claims(p', fp, f) ==> Claims(p, fp, f)
  }

  lemma StaysFair(c: S.Config, s: State, s': State, before: S.Rows, fp: Key, clock: real, later: real)
    requires Coherent(s) && Fair(c, s, before, fp, clock) && clock <= later
    requires KeepsAck(s.rows, s'.rows, fp) && NoNewClaims(s.pool, s'.pool, fp)
    requires forall m :: m in s'.tasks ==> m in s.tasks && s'.tasks[m].firing == s.tasks[m].firing
    ensures Fair(c, s', before, fp, later)
  {
    forall f | Claims(s'.pool, fp, f) ensures DueOrWas(c, s'.rows, before, f, later) {
      ClaimIsOfIncident(s, fp, f);
      assert DueOrWas(c, s.rows, before, f, clock);
    }
    forall m | m in s'.tasks ensures ListedFair(c, s', before, fp, s'.tasks[m], later) {
      assert ListedFair(c, s, before, fp, s.tasks[m], clock);
    }
  }

  lemma ClaimIsOfIncident(s: State, fp: Key, f: Firing)
    requires Coherent(s) && Claims(s.pool, fp, f)
    ensures f.fingerprint == fp
  {
    if x :| x in s.pool.queue.pending && x.fingerprint == fp && x.payload.firing == f {
      assert JobLive(s.rows, x);
    } else {
      var w: nat :| Runs(s.pool, w, fp, f);
      assert JobLive(s.rows, ItemOf(s, w));
    }
  }

  lemma PoolEventFair(c: Settings, s: State, e: Event, before: S.Rows, fp: Key, clock: real)
    requires Coherent(s) && Fair(c.store, s, before, fp, clock) && IsPoolEvent(e) && Enabled(c, s, e)
    ensures Fair(c.store, Apply(c, s, e), before, fp, clock)
  {
    PoolEventIsPoolStep(c, s, e);
    forall f | Claims(Apply(c, s, e).pool, fp, f) ensures Claims(s.pool, fp, f) {
      StepClaims(s.pool, StepOf(c, s, e), fp, f);
    }
    StaysFair(c.store, s, Apply(c, s, e), before, fp, clock, clock);
  }

  lemma CancelFair(c: S.Config, s: State, minion: string, now: real, before: S.Rows, fp: Key, clock: real)
    requires Coherent(s) && Fair(c, s, before, fp, clock) && minion in s.tasks && s.tasks[minion].resolved != []
    ensures Fair(c, CancelOne(s, minion, now), before, fp, clock)
  {
    var s' := CancelOne(s, minion, now);
    forall f | Claims(s'.pool, fp, f) ensures Claims(s.pool, fp, f) {
      StepClaims(s.pool, P.Withdraw(s.tasks[minion].resolved[0].fingerprint), fp, f);
    }
    StaysFair(c, s, s', before, fp, clock, clock);
  }

  /** A restart drops every job and every list. */
  lemma RestartFair(c: Settings, s: State, before: S.Rows, fp: Key, clock: real)
    ensures Fair(c.store, Apply(c, s, Restart), before, fp, clock)
  {
    var pool := P.Fresh(c.maxPending, c.workers);
    forall f ensures !Claims(pool, fp, f) {
      assert forall w: nat :: !Runs(pool, w, fp, f);
    }
  }

  // A reconcile, which lists what is due

  lemma ListIsFair(c: Settings, s: State, e: Event, before: S.Rows, fp: Key)
    requires Coherent(s) && e.Reconcile? && Allowed(c, s, e)
    ensures ListedFair(c.store, Begin(c, s, e), before, fp, Begin(c, s, e).tasks[e.minion], e.now)
  {
    var detected := OfMinion(e.cycle, e.minion);
    ReportedIsDue(c, s, e);
    S.SelectionWellFormed(detected);
    var selection := S.PreferMoreSevere(detected);
    S.FiringListDistinct(c.store, s.rows, e.minion, selection.order, selection.chosen, e.now);
  }

  lemma BeginFair(c: Settings, s: State, e: Event, before: S.Rows, fp: Key, clock: real)
    requires Coherent(s) && Fair(c.store, s, before, fp, clock) && e.Reconcile? && Allowed(c, s, e) && clock <= e.now
    ensures Fair(c.store, Begin(c, s, e), before, fp, e.now)
  {
    var s' := Begin(c, s, e);
    ReconcileKeepsAcks(s.rows, e.minion, e.cycle, e.now);
    StaysFair(c.store, s, s.(rows := s'.rows), before, fp, clock, e.now);
    ListIsFair(c, s, e, before, fp);
    forall m | m in s'.tasks ensures ListedFair(c.store, s', before, fp, s'.tasks[m], e.now) {
      if m != e.minion {
        assert ListedFair(c.store, s.(rows := s'.rows), before, fp, s.tasks[m], e.now);
      }
    }
  }

  // An enqueue, which turns the listed firing into a job

  lemma OfferClaims(p: P.Pool, fp: Key, severity: Severity, work: Work, other: Key, f: Firing)
    requires P.PoolValid(p) && Claims(P.Apply(p, P.Offer(fp, severity, work)), other, f)
    ensures Claims(p, other, f) || (other == fp && f == work.firing)
  {
    var p' := P.Apply(p, P.Offer(fp, severity, work));
    Q.EnqueueItems(p.queue, fp, severity, work);
    if w: nat :| Runs(p', w, other, f) {
      assert Runs(p, w, other, f);
    }
  }

  lemma EnqueueFair(c: Settings, s: State, minion: string, now: real, before: S.Rows, fp: Key, clock: real)
    requires Coherent(s) && Fair(c.store, s, before, fp, clock) && Enabled(c, s, EnqueueNext(minion, now))
    ensures Fair(c.store, EnqueueOne(s, minion, now), before, fp, clock)
  {
    var s' := EnqueueOne(s, minion, now);
    var firing := s.tasks[minion].firing[0];
    var work := Work(firing, now);
    assert firing in s.tasks[minion].firing && TaskLive(s.rows, s.pool, minion, s.tasks[minion]);
    assert ListedFair(c.store, s, before, fp, s.tasks[minion], clock);
    forall f | Claims(s'.pool, fp, f)
      ensures Claims(s.pool, fp, f) || fp == firing.fingerprint
      ensures DueOrWas(c.store, s'.rows, before, f, clock)
    {
      OfferClaims(s.pool, firing.fingerprint, firing.anomaly.severity, work, fp, f);
    }
    forall m | m in s'.tasks ensures ListedFair(c.store, s', before, fp, s'.tasks[m], clock) {
      assert ListedFair(c.store, s, before, fp, s.tasks[m], clock);
      RestIsFair(c.store, s, s', minion, before, fp, m, clock);
    }
  }

  lemma RestIsFair(
    c: S.Config, s: State, s': State, minion: string, before: S.Rows, fp: Key, m: string, clock: real)
    requires Coherent(s) && minion in s.tasks && s.tasks[minion].firing != [] && s'.rows == s.rows
    requires forall f :: Claims(s'.pool, fp, f) ==>
               Claims(s.pool, fp, f) || fp == s.tasks[minion].firing[0].fingerprint
    requires m in s.tasks && ListedFair(c, s, before, fp, s.tasks[m], clock)
    requires m in s'.tasks
    requires s'.tasks[m].firing == if m == minion then s.tasks[m].firing[1..] else s.tasks[m].firing
    ensures ListedFair(c, s', before, fp, s'.tasks[m], clock)
  {
    var head := s.tasks[minion].firing[0];
    assert head in s.tasks[minion].firing && TaskLive(s.rows, s.pool, minion, s.tasks[minion]);
    assert TaskLive(s.rows, s.pool, m, s.tasks[m]);
    forall f | f in s'.tasks[m].firing && f.fingerprint == fp
      ensures Due(c, s'.rows, f, clock) || (Due(c, before, f, clock) && Unclaimed(s'.pool, fp))
    {
      assert f in s.tasks[m].firing;
      assert fp != head.fingerprint;
    }
  }

  // An acknowledgement, after which what was due is due in the table before it

  lemma AckedFair(c: Settings, s: State, w: nat, now: real, before: S.Rows, fp: Key, clock: real)
    requires Coherent(s) && Fair(c.store, s, before, fp, clock) && clock <= now
    requires At(s, w, P.DeliveryReplied(true)) && ItemOf(s, w).fingerprint == fp
    ensures Fair(c.store, Apply(c, s, Delivered(w, now)), s.rows, fp, now)
  {
    var s' := Apply(c, s, Delivered(w, now));
    var firing := ItemOf(s, w).payload.firing;
    assert Runs(s.pool, w, fp, firing) && Claims(s.pool, fp, firing);
    NoJobAfterAck(c, s, w, now, fp);
    forall m | m in s'.tasks ensures ListedFair(c.store, s', s.rows, fp, s'.tasks[m], now) {
      assert ListedFair(c.store, s, before, fp, s.tasks[m], clock);
    }
  }

  lemma NoJobAfterAck(c: Settings, s: State, w: nat, now: real, fp: Key)
    requires Coherent(s) && At(s, w, P.DeliveryReplied(true)) && ItemOf(s, w).fingerprint == fp
    ensures Unclaimed(Apply(c, s, Delivered(w, now)).pool, fp)
  {
    var pool := Apply(c, s, Delivered(w, now)).pool;
    assert P.Holds(s.pool, w, fp);
    forall f ensures !Claims(pool, fp, f) {
      if v: nat :| Runs(pool, v, fp, f) {
        assert P.Holds(s.pool, v, fp);
      }
    }
  }

  lemma DeliveredFair(c: Settings, s: State, w: nat, now: real, before: S.Rows, fp: Key, clock: real)
    requires Coherent(s) && Fair(c.store, s, before, fp, clock) && clock <= now
    requires Enabled(c, s, Delivered(w, now)) && !Acks(s, Delivered(w, now), fp)
    ensures Fair(c.store, Apply(c, s, Delivered(w, now)), before, fp, now)
  {
    var s' := Apply(c, s, Delivered(w, now));
    if At(s, w, P.DeliveryReplied(true)) {
      AcknowledgementReachesItsRow(c, s, w, now);
    }
    forall f | Claims(s'.pool, fp, f) ensures Claims(s.pool, fp, f) {
      StepClaims(s.pool, P.Finish(w, true), fp, f);
    }
    StaysFair(c.store, s, s', before, fp, clock, now);
  }

  lemma {:induction false} StepFair(c: Settings, s: State, e: Event, before: S.Rows, fp: Key, clock: real)
    requires Coherent(s) && Fair(c.store, s, before, fp, clock) && Allowed(c, s, e) && InOrder(e, clock)
    ensures Fair(c.store, Apply(c, s, e), BeforeAfter(s, e, fp, before), fp, ClockAfter(e, clock))
  {
    if e.Reconcile? {
      BeginFair(c, s, e, before, fp, clock);
    } else if e.CancelNext? {
      CancelFair(c.store, s, e.minion, e.now, before, fp, clock);
    } else if e.ServeResolution? {
      StaysFair(c.store, s, AnswerResolution(s, e.minion, e.effect, e.report), before, fp, clock, clock);
    } else if e.FinishResolution? {
      StaysFair(c.store, s, ConcludeResolution(s, e.minion, e.now), before, fp, clock, clock);
    } else if e.EnqueueNext? {
      EnqueueFair(c, s, e.minion, e.now, before, fp, clock);
    } else if Acks(s, e, fp) {
      AckedFair(c, s, e.w, e.now, before, fp, clock);
    } else if e.Delivered? {
      DeliveredFair(c, s, e.w, e.now, before, fp, clock);
    } else if IsPoolEvent(e) {
      PoolEventFair(c, s, e, before, fp, clock);
    } else if e.Restart? {
      RestartFair(c, s, before, fp, clock);
    } else {
      StaysFair(c.store, s, Apply(c, s, e), before, fp, clock, clock);
    }
  }

  // Consecutive acknowledgements

  /** Each acknowledgement but the first two is spaced from one of the two before it. */
  ghost predicate LooselySpaced(c: S.Config, acks: seq<R.Ack>) {
    forall i :: 2 <= i < |acks| ==> R.Spaced(c, acks[i - 1], acks[i]) || R.Spaced(c, acks[i - 2], acks[i])
  }

  /** An acknowledgement is spaced from the one before it or from the one before that. */
  lemma AckIsLooselySpaced(
    c: Settings, s: State, e: Event, before: S.Rows, fp: Key, clock: real, b: R.Ack, a: R.Ack)
    requires Coherent(s) && Fair(c.store, s, before, fp, clock) && Allowed(c, s, e) && Acks(s, e, fp)
    requires clock <= e.now && Shows(before, fp, b) && Shows(s.rows, fp, a)
    ensures R.Spaced(c.store, a, AckOf(c, s, e, fp)) || R.Spaced(c.store, b, AckOf(c, s, e, fp))
  {
    AcknowledgementReachesItsRow(c, s, e.w, e.now);
    assert JobLive(s.rows, ItemOf(s, e.w));
    var firing := ItemOf(s, e.w).payload.firing;
    assert Runs(s.pool, e.w, fp, firing) && Claims(s.pool, fp, firing);
    assert DueOrWas(c.store, s.rows, before, firing, clock);
  }

  lemma AckIsShown(c: Settings, s: State, e: Event, fp: Key)
    requires Coherent(s) && Allowed(c, s, e) && Acks(s, e, fp)
    ensures Shows(Apply(c, s, e).rows, fp, AckOf(c, s, e, fp))
  {
    AcknowledgementReachesItsRow(c, s, e.w, e.now);
  }

  /** A run of one generation from a state in which the last two acknowledgements are b and a. */
  lemma {:induction false} FirstIsLooselySpaced(
    c: Settings, s: State, events: seq<Event>, before: S.Rows, fp: Key, clock: real, b: R.Ack, a: R.Ack)
    requires 1 <= c.maxPending && Coherent(s) && Fair(c.store, s, before, fp, clock)
    requires IsRun(c, s, events) && TimedRun(events, clock) && OneGeneration(c, s, events, fp)
    requires Shows(before, fp, b) && Shows(s.rows, fp, a) && AcksOf(c, s, events, fp) != []
    ensures var ack := AcksOf(c, s, events, fp)[0]; R.Spaced(c.store, a, ack) || R.Spaced(c.store, b, ack)
    decreases |events|
  {
    var e := events[0];
    if Acks(s, e, fp) {
      AckIsLooselySpaced(c, s, e, before, fp, clock, b, a);
    } else {
      OthersKeepShown(c, s, e, fp, a);
      StepFair(c, s, e, before, fp, clock);
      StepCoherent(c, s, e);
      FirstIsLooselySpaced(c, Apply(c, s, e), events[1..], before, fp, ClockAfter(e, clock), b, a);
    }
  }

  lemma {:induction false} SecondIsLooselySpaced(
    c: Settings, s: State, events: seq<Event>, before: S.Rows, fp: Key, clock: real, a: R.Ack)
    requires 1 <= c.maxPending && Coherent(s) && Fair(c.store, s, before, fp, clock)
    requires IsRun(c, s, events) && TimedRun(events, clock) && OneGeneration(c, s, events, fp)
    requires Shows(s.rows, fp, a) && |AcksOf(c, s, events, fp)| >= 2
    ensures var acks := AcksOf(c, s, events, fp);
            R.Spaced(c.store, acks[0], acks[1]) || R.Spaced(c.store, a, acks[1])
    decreases |events|
  {
    var e, next, now := events[0], Apply(c, s, events[0]), ClockAfter(events[0], clock);
    StepFair(c, s, e, before, fp, clock);
    StepCoherent(c, s, e);
    if Acks(s, e, fp) {
      AckIsShown(c, s, e, fp);
      FirstIsLooselySpaced(c, next, events[1..], s.rows, fp, now, a, AckOf(c, s, e, fp));
    } else {
      OthersKeepShown(c, s, e, fp, a);
      SecondIsLooselySpaced(c, next, events[1..], before, fp, now, a);
    }
  }

  lemma PrependLooselySpaced(c: S.Config, ack: R.Ack, acks: seq<R.Ack>)
    requires LooselySpaced(c, acks)
    requires |acks| >= 2 ==> R.Spaced(c, acks[0], acks[1]) || R.Spaced(c, ack, acks[1])
    ensures LooselySpaced(c, [ack] + acks)
  {
    var all := [ack] + acks;
    forall i | 2 <= i < |all| ensures R.Spaced(c, all[i - 1], all[i]) || R.Spaced(c, all[i - 2], all[i]) {
      assert all[i] == acks[i - 1] && all[i - 1] == acks[i - 2];
      if i > 2 { assert all[i - 2] == acks[i - 3]; }
    }
  }

  lemma AcksUnfold(c: Settings, s: State, events: seq<Event>, fp: Key)
    requires IsRun(c, s, events) && events != []
    ensures var e, rest := events[0], AcksOf(c, Apply(c, s, events[0]), events[1..], fp);
            AcksOf(c, s, events, fp) == if Acks(s, e, fp) then [AckOf(c, s, e, fp)] + rest else rest
  {
  }

  lemma {:induction false} AcksInTimeOrder(c: Settings, s: State, events: seq<Event>, fp: Key, clock: real)
    requires IsRun(c, s, events) && TimedRun(events, clock)
    ensures R.InTimeOrder(AcksOf(c, s, events, fp), clock)
    decreases |events|
  {
    if events != [] {
      var e, next, now := events[0], Apply(c, s, events[0]), ClockAfter(events[0], clock);
      AcksInTimeOrder(c, next, events[1..], fp, now);
      AcksUnfold(c, s, events, fp);
      if Acks(s, e, fp) { R.PrependInOrder(AckOf(c, s, e, fp), AcksOf(c, next, events[1..], fp), clock); }
    }
  }

  lemma {:induction false} AcksAreLooselySpaced(
    c: Settings, s: State, events: seq<Event>, before: S.Rows, fp: Key, clock: real)
    requires 1 <= c.maxPending && Coherent(s) && Fair(c.store, s, before, fp, clock)
    requires IsRun(c, s, events) && TimedRun(events, clock) && OneGeneration(c, s, events, fp)
    ensures LooselySpaced(c.store, AcksOf(c, s, events, fp))
    decreases |events|
  {
    if events != [] {
      var e, next, now := events[0], Apply(c, s, events[0]), ClockAfter(events[0], clock);
      var before' := BeforeAfter(s, e, fp, before);
      StepFair(c, s, e, before, fp, clock);
      StepCoherent(c, s, e);
      AcksAreLooselySpaced(c, next, events[1..], before', fp, now);
      AcksUnfold(c, s, events, fp);
      if Acks(s, e, fp) { PrependAck(c, s, events, before', fp, now); }
    }
  }

  lemma PrependAck(c: Settings, s: State, events: seq<Event>, before: S.Rows, fp: Key, clock: real)
    requires 1 <= c.maxPending && Coherent(s) && IsRun(c, s, events) && events != [] && Acks(s, events[0], fp)
    requires var next := Apply(c, s, events[0]);
             && Coherent(next) && Fair(c.store, next, before, fp, clock)
             && TimedRun(events[1..], clock) && OneGeneration(c, next, events[1..], fp)
             && LooselySpaced(c.store, AcksOf(c, next, events[1..], fp))
    ensures LooselySpaced(c.store, [AckOf(c, s, events[0], fp)] + AcksOf(c, Apply(c, s, events[0]), events[1..], fp))
  {
    var next, ack := Apply(c, s, events[0]), AckOf(c, s, events[0], fp);
    var rest := AcksOf(c, next, events[1..], fp);
    AckIsShown(c, s, events[0], fp);
    if |rest| >= 2 { SecondIsLooselySpaced(c, next, events[1..], before, fp, clock, ack); }
    PrependLooselySpaced(c.store, ack, rest);
  }

  // The bound

  function LowerRank(a: R.Ack, b: R.Ack): int {
    if Rank(a.severity) < Rank(b.severity) then Rank(a.severity) else Rank(b.severity)
  }

  /** Every two acknowledgements inside a window raise the lower of two neighbouring ranks. */
  lemma {:induction false} PairsClimb(c: S.Config, acks: seq<R.Ack>, from: real, i: nat, j: nat)
    requires LooselySpaced(c, acks) && R.InTimeOrder(acks, from)
    requires i < j < |acks| && acks[j].at - acks[i].at < c.cooldownSeconds as real
    ensures j - i + 1 <= 2 * (3 - LowerRank(acks[i], acks[i + 1]))
    decreases j - i
  {
    if i + 2 <= j {
      RankRises(c, acks, from, i, j, i + 2);
      if i + 3 <= j {
        RankRises(c, acks, from, i, j, i + 3);
        PairsClimb(c, acks, from, i + 2, j);
      }
    }
  }

  lemma RankRises(c: S.Config, acks: seq<R.Ack>, from: real, i: nat, j: nat, k: nat)
    requires LooselySpaced(c, acks) && R.InTimeOrder(acks, from)
    requires i + 2 <= k <= j < |acks| && acks[j].at - acks[i].at < c.cooldownSeconds as real
    ensures Rank(acks[k].severity) > LowerRank(acks[k - 2], acks[k - 1])
  {
    assert R.Spaced(c, acks[k - 1], acks[k]) || R.Spaced(c, acks[k - 2], acks[k]);
    assert acks[i].at <= acks[k - 2].at <= acks[k - 1].at <= acks[k].at <= acks[j].at;
  }

  /** In every state of every run, whatever is released when. */
  lemma {:induction false} RunFair(
    c: Settings, s: State, events: seq<Event>, before: S.Rows, fp: Key, clock: real) returns (before': S.Rows)
    requires 1 <= c.maxPending && Coherent(s) && Fair(c.store, s, before, fp, clock)
    requires IsRun(c, s, events) && TimedRun(events, clock)
    ensures Coherent(After(c, s, events))
    ensures Fair(c.store, After(c, s, events), before', fp, ClockAfterRun(events, clock))
    decreases |events|
  {
    before' := before;
    if events != [] {
      StepFair(c, s, events[0], before, fp, clock);
      StepCoherent(c, s, events[0]);
      var next := BeforeAfter(s, events[0], fp, before);
      before' := RunFair(c, Apply(c, s, events[0]), events[1..], next, fp, ClockAfter(events[0], clock));
    }
  }

  lemma InitialFair(c: Settings, before: S.Rows, fp: Key, clock: real)
    ensures Fair(c.store, Initial(c), before, fp, clock)
  {
    forall f ensures !Claims(Initial(c).pool, fp, f) {
      assert forall w: nat :: !Runs(Initial(c).pool, w, fp, f);
    }
  }

  /**
   Over every run of the whole protocol, with jobs released at any moment: within
   one generation a window shorter than the cooldown holds at most six acknowledged
   firings of an incident, or eight if one of its first two was stored with a
   severity outside the known three.
   */
  lemma {:induction false} AtMostSixAcksInAnyRun(
    c: Settings, first: seq<Event>, events: seq<Event>, clock: real, fp: Key, i: nat, j: nat)
    requires 1 <= c.maxPending && IsRun(c, Initial(c), first) && TimedRun(first, clock)
    requires var s := After(c, Initial(c), first);
             && IsRun(c, s, events) && TimedRun(events, ClockAfterRun(first, clock))
             && OneGeneration(c, s, events, fp)
             && i < j < |AcksOf(c, s, events, fp)|
             && AcksOf(c, s, events, fp)[j].at - AcksOf(c, s, events, fp)[i].at < c.store.cooldownSeconds as real
    ensures var acks := AcksOf(c, After(c, Initial(c), first), events, fp);
            j - i + 1 <= if acks[i].severity.Other? || acks[i + 1].severity.Other? then 8 else 6
  {
    var s := After(c, Initial(c), first);
    InitialCoherent(c);
    InitialFair(c, map[], fp, clock);
    var before := RunFair(c, Initial(c), first, map[], fp, clock);
    AcksAreLooselySpaced(c, s, events, before, fp, ClockAfterRun(first, clock));
    AcksInTimeOrder(c, s, events, fp, ClockAfterRun(first, clock));
    PairsClimb(c.store, AcksOf(c, s, events, fp), ClockAfterRun(first, clock), i, j);
  }
}
