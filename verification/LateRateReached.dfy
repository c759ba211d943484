/**
 The bound of `LateRate` is attained: if each job is released between a reconcile
 and the enqueueing of what it listed, then an incident is acknowledged at one
 moment with every severity that exceeds the one two before it.
 */
module LateRateReached {
  import opened Domain
  import opened Protocol
  import opened ProtocolRate
  import opened Releases
  import opened SoundRuns
  import opened LateRelease
  import Q = QueueModel
  import P = WorkerPool
  import R = RateLimit
  import S = StoreModel

  // Runs at one moment

  ghost predicate AtOnce(events: seq<Event>) {
    forall e :: e in events && Timed(e) ==> e.now == 0.0
  }

  lemma {:induction false} AtOnceIsTimed(events: seq<Event>)
    requires AtOnce(events)
    ensures TimedRun(events, 0.0) && ClockAfterRun(events, 0.0) == 0.0
    decreases |events|
  {
    if events != [] {
      assert events[0] in events && forall e :: e in events[1..] ==> e in events;
      AtOnceIsTimed(events[1..]);
    }
  }

  /** A run at one moment, within one generation of the incident, with these acknowledgements. */
  ghost predicate Leads(s: State, events: seq<Event>, acks: seq<R.Ack>, s': State) {
    && IsRun(SETTINGS, s, events) && After(SETTINGS, s, events) == s' && AtOnce(events)
    && OneGeneration(SETTINGS, s, events, INCIDENT) && AcksOf(SETTINGS, s, events, INCIDENT) == acks
  }

  function AckAt(s: State, e: Event): seq<R.Ack>
    requires Enabled(SETTINGS, s, e)
  {
    if Acks(s, e, INCIDENT) then [AckOf(SETTINGS, s, e, INCIDENT)] else []
  }

  lemma LeadFirst(s: State, e: Event, events: seq<Event>, acks: seq<R.Ack>, s': State)
    requires Allowed(SETTINGS, s, e) && !Renews(s, e, INCIDENT) && (Timed(e) ==> e.now == 0.0)
    requires Leads(Apply(SETTINGS, s, e), events, acks, s')
    ensures Leads(s, [e] + events, AckAt(s, e) + acks, s')
  {
    assert ([e] + events)[1..] == events;
  }

  lemma LeadTail(s: State, events: seq<Event>, acks: seq<R.Ack>, s': State) returns (rest: seq<R.Ack>)
    requires Leads(s, events, acks, s') && events != []
    ensures var e := events[0];
            && Allowed(SETTINGS, s, e) && !Renews(s, e, INCIDENT) && (Timed(e) ==> e.now == 0.0)
            && Leads(Apply(SETTINGS, s, e), events[1..], rest, s') && acks == AckAt(s, e) + rest
  {
    var e, next := events[0], Apply(SETTINGS, s, events[0]);
    assert e in events && forall x :: x in events[1..] ==> x in events;
    rest := AcksOf(SETTINGS, next, events[1..], INCIDENT);
  }

  lemma {:induction false} LeadOn(
    s: State, first: seq<Event>, acks: seq<R.Ack>, middle: State, second: seq<Event>, more: seq<R.Ack>, s': State)
    requires Leads(s, first, acks, middle) && Leads(middle, second, more, s')
    ensures Leads(s, first + second, acks + more, s')
    decreases |first|
  {
    if first == [] {
      assert first + second == second && acks + more == more;
    } else {
      var e, tail := first[0], first[1..];
      var rest := LeadTail(s, first, acks, middle);
      LeadOn(Apply(SETTINGS, s, e), tail, rest, middle, second, more, s');
      LeadFirst(s, e, tail + second, rest + more, s');
      assert [e] + (tail + second) == first + second;
      assert AckAt(s, e) + (rest + more) == acks + more;
    }
  }

  /** Events that are neither reconciles nor answers to a delivery acknowledge nothing. */
  lemma {:induction false} QuietLeads(s: State, events: seq<Event>)
    requires IsRun(SETTINGS, s, events) && forall e :: e in events ==> !Timed(e)
    ensures Leads(s, events, [], After(SETTINGS, s, events))
    decreases |events|
  {
    if events != [] {
      assert events[0] in events && forall e :: e in events[1..] ==> e in events;
      QuietLeads(Apply(SETTINGS, s, events[0]), events[1..]);
    }
  }

  /** One event that starts no new generation. */
  lemma OneLeads(s: State, e: Event, s': State)
    requires Allowed(SETTINGS, s, e) && Apply(SETTINGS, s, e) == s'
    requires !Renews(s, e, INCIDENT) && (Timed(e) ==> e.now == 0.0)
    ensures Leads(s, [e], AckAt(s, e), s')
  {
    assert [e][1..] == [];
  }

  // The incident's row, and its job

  /** The row of the one incident; `last` is the severity acknowledged last. */
  ghost predicate Row(s: State, last: Option<Severity>) {
    && s.rows.Keys == {INCIDENT}
    && var row := s.rows[INCIDENT];
       && row.minion == HOST && row.active && row.absent == 0 && row.startsAt == 0
       && row.lastEmitted == (if last.Some? then Some(0.0) else None) && row.lastEmittedSeverity == last
  }

  ghost predicate Carries(f: Firing, v: Severity) {
    f.fingerprint == INCIDENT && f.startsAt == 0 && f.anomaly == Sighting(v)
  }

  ghost predicate OneIdle(pool: P.Pool) {
    pool.workers == [P.Idle] && pool.queue.pending == [] && pool.queue.inFlight == {}
    && pool.queue.accepting && pool.queue.maxPending == 5
  }

  /** The only worker has the incident in this phase, and nothing is queued. */
  ghost predicate OneBusy(pool: P.Pool, phase: P.Phase, v: Severity) {
    && pool.workers == [phase] && P.Busy(phase)
    && phase.item.fingerprint == INCIDENT && Carries(phase.item.payload.firing, v)
    && pool.queue.pending == [] && pool.queue.inFlight == {INCIDENT}
    && pool.queue.accepting && pool.queue.maxPending == 5
  }

  ghost predicate HasListed(s: State, v: Severity) {
    && s.tasks.Keys == {HOST} && s.tasks[HOST].post.NoPost? && s.tasks[HOST].resolved == []
    && |s.tasks[HOST].firing| == 1 && Carries(s.tasks[HOST].firing[0], v)
  }

  /** A firing of severity v was delivered, and the worker has not resumed. */
  ghost predicate Answered(s: State, v: Severity, last: Option<Severity>) {
    && Row(s, last) && s.tasks == map[] && At(s, 0, P.DeliveryReplied(true))
    && OneBusy(s.pool, s.pool.workers[0], v)
  }

  ghost predicate Listed(s: State, v: Severity, last: Option<Severity>) {
    Row(s, last) && HasListed(s, v) && OneIdle(s.pool)
  }

  // From the list to the next answer

  lemma QueueListed(s: State, v: Severity, last: Option<Severity>) returns (s': State)
    requires Listed(s, v, last)
    ensures Enabled(SETTINGS, s, EnqueueNext(HOST, 0.0)) && s' == Apply(SETTINGS, s, EnqueueNext(HOST, 0.0))
    ensures s'.rows == s.rows && s'.tasks.Keys == {HOST} && s'.pool.workers == [P.Idle]
    ensures var q := s'.pool.queue;
            && |q.pending| == 1 && q.pending[0].fingerprint == INCIDENT
            && q.pending[0].payload.detectedAt == 0.0 && Carries(q.pending[0].payload.firing, v)
            && q.inFlight == {} && q.accepting && q.maxPending == 5
  {
    s' := EnqueueOne(s, HOST, 0.0);
  }

  lemma TakeListed(s: State, v: Severity, last: Option<Severity>) returns (events: seq<Event>, s': State)
    requires Listed(s, v, last)
    ensures IsRun(SETTINGS, s, events) && After(SETTINGS, s, events) == s'
    ensures forall e :: e in events ==> !Timed(e)
    ensures s'.rows == s.rows && s'.tasks == map[] && At(s', 0, P.Started)
    ensures OneBusy(s'.pool, s'.pool.workers[0], v) && ItemOf(s', 0).payload.detectedAt == 0.0
  {
    var queued := QueueListed(s, v, last);
    Single(SETTINGS, s, EnqueueNext(HOST, 0.0), queued);
    var ended := queued.(tasks := queued.tasks - {HOST});
    Single(SETTINGS, queued, EndTask(HOST), ended);
    Follows(SETTINGS, s, [EnqueueNext(HOST, 0.0)], [EndTask(HOST)]);
    s' := TakeStep(SETTINGS, ended, 0);
    Single(SETTINGS, ended, Take(0), s');
    Follows(SETTINGS, s, [EnqueueNext(HOST, 0.0)] + [EndTask(HOST)], [Take(0)]);
    events := [EnqueueNext(HOST, 0.0)] + [EndTask(HOST)] + [Take(0)];
  }

  lemma DeliverTaken(s: State, v: Severity, last: Option<Severity>) returns (events: seq<Event>, s': State)
    requires Row(s, last) && s.tasks == map[] && At(s, 0, P.Started)
    requires OneBusy(s.pool, s.pool.workers[0], v) && ItemOf(s, 0).payload.detectedAt == 0.0
    ensures IsRun(SETTINGS, s, events) && After(SETTINGS, s, events) == s'
    ensures forall e :: e in events ==> !Timed(e)
    ensures Answered(s', v, last)
  {
    s' := InvestigationRun(SETTINGS, s, 0, 0.0);
    events := Investigation(0, LabelsChanged(ItemOf(s, 0)), 0.0);
  }

  /** Queued, taken up, and delivered. */
  lemma Deliver(s: State, v: Severity, last: Option<Severity>) returns (events: seq<Event>, s': State)
    requires Listed(s, v, last)
    ensures Leads(s, events, [], s') && Answered(s', v, last)
  {
    var before, taken := TakeListed(s, v, last);
    var work;
    work, s' := DeliverTaken(taken, v, last);
    events := before + work;
    Follows(SETTINGS, s, before, work);
    QuietLeads(s, events);
  }

  // From one answer to the next list

  /** What a cycle with this severity makes of the row and lists. */
  lemma ReadAgain(s: State, v: Severity, last: Option<Severity>) returns (s': State)
    requires Row(s, last) && s.tasks == map[]
    requires last.None? || Rank(v) > Rank(last.value)
    ensures var e := Reconcile(HOST, [Sighting(v)], 0.0, []);
            Allowed(SETTINGS, s, e) && s' == Apply(SETTINGS, s, e) && !Renews(s, e, INCIDENT)
    ensures Row(s', last) && HasListed(s', v) && s'.pool == s.pool
  {
    var e := Reconcile(HOST, [Sighting(v)], 0.0, []);
    SingleSelection(v);
    SingleFiring(s.rows, v, 0.0);
    S.ReconcileAt(s.rows, HOST, [Sighting(v)], 0.0, INCIDENT);
    s' := Begin(SETTINGS, s, e);
  }

  lemma Acknowledge(s: State, v: Severity, last: Option<Severity>) returns (s': State)
    requires Row(s, last) && At(s, 0, P.DeliveryReplied(true)) && OneBusy(s.pool, s.pool.workers[0], v)
    requires v != Other("")
    ensures var e := Delivered(0, 0.0);
            && Allowed(SETTINGS, s, e) && s' == Apply(SETTINGS, s, e)
            && Acks(s, e, INCIDENT) && AckOf(SETTINGS, s, e, INCIDENT) == R.Ack(0.0, v)
    ensures Row(s', Some(v)) && s'.tasks == s.tasks
    ensures s'.pool.workers[0].Counted? && OneBusy(s'.pool, s'.pool.workers[0], v)
  {
    s' := Apply(SETTINGS, s, Delivered(0, 0.0));
  }

  lemma Release(s: State, v: Severity) returns (s': State)
    requires |s.pool.workers| == 1 && s.pool.workers[0].Counted? && OneBusy(s.pool, s.pool.workers[0], v)
    ensures Enabled(SETTINGS, s, LetGo(0)) && s' == Apply(SETTINGS, s, LetGo(0))
    ensures s'.rows == s.rows && s'.tasks == s.tasks && OneIdle(s'.pool)
  {
    s' := LetGoStep(SETTINGS, s, 0);
  }

  lemma AckAndRelease(s: State, v: Severity, last: Option<Severity>) returns (s': State)
    requires Row(s, last) && At(s, 0, P.DeliveryReplied(true)) && OneBusy(s.pool, s.pool.workers[0], v)
    requires v != Other("")
    ensures Leads(s, [Delivered(0, 0.0)] + [LetGo(0)], [R.Ack(0.0, v)], s')
    ensures Row(s', Some(v)) && s'.tasks == s.tasks && OneIdle(s'.pool)
  {
    var acked := Acknowledge(s, v, last);
    s' := Release(acked, v);
    OneLeads(acked, LetGo(0), s');
    LeadFirst(s, Delivered(0, 0.0), [LetGo(0)], [], s');
    assert [R.Ack(0.0, v)] + [] == [R.Ack(0.0, v)];
  }

  /** The next cycle reads the row before the worker resumes, which acknowledges and is released. */
  lemma ReleaseLate(s: State, v: Severity, last: Option<Severity>, next: Severity)
    returns (events: seq<Event>, s': State)
    requires Answered(s, v, last) && v != Other("") && (last.None? || Rank(next) > Rank(last.value))
    ensures Leads(s, events, [R.Ack(0.0, v)], s') && Listed(s', next, Some(v))
  {
    var e := Reconcile(HOST, [Sighting(next)], 0.0, []);
    var read := ReadAgain(s, next, last);
    s' := AckAndRelease(read, v, last);
    LeadFirst(s, e, [Delivered(0, 0.0)] + [LetGo(0)], [R.Ack(0.0, v)], s');
    assert [] + [R.Ack(0.0, v)] == [R.Ack(0.0, v)];
    events := [e] + ([Delivered(0, 0.0)] + [LetGo(0)]);
  }

  lemma Round(s: State, v: Severity, last: Option<Severity>, next: Severity)
    returns (events: seq<Event>, s': State)
    requires Answered(s, v, last) && v != Other("") && (last.None? || Rank(next) > Rank(last.value))
    ensures Leads(s, events, [R.Ack(0.0, v)], s') && Answered(s', next, Some(v))
  {
    var release, listed := ReleaseLate(s, v, last, next);
    var rest;
    rest, s' := Deliver(listed, next, Some(v));
    LeadOn(s, release, [R.Ack(0.0, v)], listed, rest, [], s');
    events := release + rest;
    assert [R.Ack(0.0, v)] + [] == [R.Ack(0.0, v)];
  }

  // Any climb by twos

  /** Each severity exceeds the one two before it, and none is the text that the store does not keep. */
  ghost predicate ClimbsByTwos(severities: seq<Severity>) {
    && (forall k :: 2 <= k < |severities| ==> Rank(severities[k]) > Rank(severities[k - 2]))
    && (forall k :: 0 <= k < |severities| ==> severities[k] != Other(""))
  }

  function AtZero(severities: seq<Severity>): seq<R.Ack> {
    seq(|severities|, (k: nat) requires k < |severities| => R.Ack(0.0, severities[k]))
  }

  /** From a delivered firing on: one round a severity, and the last one acknowledged. */
  lemma {:induction false} Rounds(s: State, last: Option<Severity>, severities: seq<Severity>)
    returns (events: seq<Event>, s': State)
    requires severities != [] && ClimbsByTwos(severities) && Answered(s, severities[0], last)
    requires last.None? || |severities| == 1 || Rank(severities[1]) > Rank(last.value)
    ensures Leads(s, events, AtZero(severities), s')
    decreases |severities|
  {
    var v := severities[0];
    if |severities| == 1 {
      s' := Acknowledge(s, v, last);
      events := [Delivered(0, 0.0)];
      OneLeads(s, Delivered(0, 0.0), s');
      assert AtZero(severities) == [R.Ack(0.0, v)];
    } else {
      var round, answered := Round(s, v, last, severities[1]);
      var rest;
      rest, s' := Rounds(answered, Some(v), severities[1..]);
      LeadOn(s, round, [R.Ack(0.0, v)], answered, rest, AtZero(severities[1..]), s');
      events := round + rest;
      assert [R.Ack(0.0, v)] + AtZero(severities[1..]) == AtZero(severities);
    }
  }

  lemma FirstList(v: Severity) returns (s: State)
    ensures var e, s0 := Reconcile(HOST, [Sighting(v)], 0.0, []), Initial(SETTINGS);
            Allowed(SETTINGS, s0, e) && s == Apply(SETTINGS, s0, e)
    ensures Listed(s, v, None)
  {
    var e, s0 := Reconcile(HOST, [Sighting(v)], 0.0, []), Initial(SETTINGS);
    SingleSelection(v);
    SingleFiring(map[], v, 0.0);
    S.ReconcileAt(map[], HOST, [Sighting(v)], 0.0, INCIDENT);
    s := Begin(SETTINGS, s0, e);
    assert s.rows.Keys == {INCIDENT};
  }

  /** From the start, a run in one generation that acknowledges all of them at one moment. */
  lemma ClimbIsAcknowledged(severities: seq<Severity>) returns (first: seq<Event>, events: seq<Event>)
    requires severities != [] && ClimbsByTwos(severities)
    ensures IsRun(SETTINGS, Initial(SETTINGS), first) && TimedRun(first, 0.0) && ClockAfterRun(first, 0.0) == 0.0
    ensures var s := After(SETTINGS, Initial(SETTINGS), first);
            && IsRun(SETTINGS, s, events) && TimedRun(events, 0.0)
            && OneGeneration(SETTINGS, s, events, INCIDENT)
            && AcksOf(SETTINGS, s, events, INCIDENT) == AtZero(severities)
  {
    var e := Reconcile(HOST, [Sighting(severities[0])], 0.0, []);
    first := [e];
    var s := FirstList(severities[0]);
    Single(SETTINGS, Initial(SETTINGS), e, s);
    AtOnceIsTimed(first);
    var deliver, answered := Deliver(s, severities[0], None);
    var rest, done := Rounds(answered, None, severities);
    LeadOn(s, deliver, [], answered, rest, AtZero(severities), done);
    assert [] + AtZero(severities) == AtZero(severities);
    events := deliver + rest;
    AtOnceIsTimed(events);
  }

  /** So six acknowledgements at one moment are possible, and eight from an unknown severity on. */
  lemma BoundIsReached(lowest: Severity)
    returns (severities: seq<Severity>, first: seq<Event>, events: seq<Event>)
    requires lowest.Info? || (lowest.Other? && lowest != Other(""))
    ensures |severities| == (if lowest.Other? then 8 else 6) && severities[0] == lowest
    ensures IsRun(SETTINGS, Initial(SETTINGS), first) && TimedRun(first, 0.0) && ClockAfterRun(first, 0.0) == 0.0
    ensures var s := After(SETTINGS, Initial(SETTINGS), first);
            && IsRun(SETTINGS, s, events) && TimedRun(events, 0.0) && OneGeneration(SETTINGS, s, events, INCIDENT)
            && AcksOf(SETTINGS, s, events, INCIDENT) == AtZero(severities)
  {
    var known := [Info, Info, Warning, Warning, Critical, Critical];
    severities := if lowest.Other? then [lowest, lowest] + known else known;
    first, events := ClimbIsAcknowledged(severities);
  }
}
