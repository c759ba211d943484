/** What the queue's priorities mean: over every run of the pool they are the severities that were offered. */
module Urgency {
  import opened Domain
  import opened QueueModel
  import P = WorkerPool

  // What one enqueue does, without the queue's own functions

  /** How each call is answered, and what it counts. */
  lemma EnqueueDecides(q: Queue, fp: Key, severity: Severity, payload: Work)
    requires Valid(q)
    ensures var (q', r) := Enqueue(q, fp, severity, payload);
            && (r.status.RejectedClosed? <==> !q.accepting)
            && (r.status.AlreadyInFlight? <==> q.accepting && fp in q.inFlight)
            && (r.status.Coalesced? <==> q.accepting && fp !in q.inFlight && IsPending(q, fp))
            && (r.status.RejectedFull? ==> q.accepting && |q.pending| == q.maxPending)
            && (r.evicted.Some? ==> r.status.Enqueued? && |q.pending| == q.maxPending)
            && (r.status.Enqueued? && |q.pending| == q.maxPending ==> r.evicted.Some?)
            && r.pending == |q'.pending| && r.inFlight == |q.inFlight|
            && (!r.status.Enqueued? && !r.status.Coalesced? ==> q'.pending == q.pending)
            && q'.inFlight == q.inFlight && q'.accepting == q.accepting && q'.maxPending == q.maxPending
    ensures var (q', r) := Enqueue(q, fp, severity, payload);
            var was, now := q.counters, q'.counters;
            && now.rejected == was.rejected + (if r.status.RejectedClosed? || r.status.RejectedFull? then 1 else 0)
            && now.coalesced == was.coalesced + (if r.status.Coalesced? then 1 else 0)
            && now.enqueued == was.enqueued + (if r.status.Enqueued? then 1 else 0)
            && now.evicted == was.evicted + (if r.evicted.Some? then 1 else 0)
            && now.cancelled == was.cancelled && now.completed == was.completed && now.failed == was.failed
  {
    FindMember(q.pending, fp);
    if q.accepting && fp !in q.inFlight {
      if Find(q.pending, fp).Some? { assert IsPending(q, fp); }
    }
  }

  /** How a cancellation is answered. */
  lemma CancelDecides(q: Queue, fp: Key)
    requires Valid(q)
    ensures var (q', status) := Cancel(q, fp);
            && status == (if IsPending(q, fp) then Cancelled else if fp in q.inFlight then CancelInFlight else NotFound)
            && !IsPending(q', fp) && (!status.Cancelled? ==> q' == q)
            && q'.counters.cancelled == q.counters.cancelled + (if status.Cancelled? then 1 else 0)
  {
    FindMember(q.pending, fp);
    CancelValid(q, fp);
    if Find(q.pending, fp).Some? { assert IsPending(q, fp); }
  }

  /** A second report of a pending incident keeps its place in time, brings new work, and may raise its priority. */
  lemma CoalescedIsRefreshed(q: Queue, fp: Key, severity: Severity, payload: Work, x: Item, y: Item)
    requires Valid(q) && x in q.pending && x.fingerprint == fp && q.accepting
    requires y in Enqueue(q, fp, severity, payload).0.pending && y.fingerprint == fp
    ensures y.sequence == x.sequence && y.payload == payload
    ensures y.priority == x.priority || y.priority == Priority(severity)
    ensures y.priority <= x.priority && y.priority <= Priority(severity)
  {
    FindMember(q.pending, fp);
    UniqueItem(q.pending, Find(q.pending, fp).value, x);
    CoalesceItems(q, x, Priority(severity), payload);
  }

  lemma AdmittedAsOffered(q: Queue, fp: Key, severity: Severity, payload: Work, y: Item)
    requires Valid(q) && Enqueue(q, fp, severity, payload).1.status.Enqueued?
    requires y in Enqueue(q, fp, severity, payload).0.pending && y.fingerprint == fp
    ensures y == Item(Priority(severity), q.nextSequence, fp, payload)
  {
    FindMember(q.pending, fp);
    var x := Item(Priority(severity), q.nextSequence, fp, payload);
    if |q.pending| == q.maxPending {
      EvictItems(q);
      InsertMembers(EvictLast(q).pending, x);
    } else {
      InsertMembers(q.pending, x);
    }
  }

  // The severities along a run

  function Worse(a: Severity, b: Severity): Severity {
    if MoreSevere(b, a) then b else a
  }

  /** The most severe report of each incident since it was last admitted. */
  ghost function Reported(p: P.Pool, step: P.Step, severities: map<Key, Severity>): map<Key, Severity>
    requires P.Enabled(p, step)
  {
    if !step.Offer? then
      severities
    else
      match Enqueue(p.queue, step.fp, step.severity, step.payload).1.status
      case Enqueued => severities[step.fp := step.severity]
      case Coalesced =>
        var known := if step.fp in severities then severities[step.fp] else step.severity;
        severities[step.fp := Worse(known, step.severity)]
      case _ => severities
  }

  ghost function ReportedAlong(p: P.Pool, steps: seq<P.Step>, severities: map<Key, Severity>): map<Key, Severity>
    requires P.Runs(p, steps)
    decreases |steps|
  {
    if steps == [] then
      severities
    else
      ReportedAlong(P.Apply(p, steps[0]), steps[1..], Reported(p, steps[0], severities))
  }

  ghost predicate Ranked(q: Queue, severities: map<Key, Severity>) {
    forall x :: x in q.pending ==> x.fingerprint in severities && x.priority == Priority(severities[x.fingerprint])
  }

  lemma OfferKeepsRanked(q: Queue, fp: Key, severity: Severity, payload: Work, severities: map<Key, Severity>)
    requires Valid(q) && Ranked(q, severities)
    ensures Ranked(Enqueue(q, fp, severity, payload).0,
                   Reported(P.Pool(q, [], false, 0), P.Offer(fp, severity, payload), severities))
  {
    var (q', r) := Enqueue(q, fp, severity, payload);
    EnqueueItems(q, fp, severity, payload);
    EnqueueDecides(q, fp, severity, payload);
    forall y | y in q'.pending && y.fingerprint == fp && r.status.Enqueued? ensures y.priority == Priority(severity) {
      AdmittedAsOffered(q, fp, severity, payload, y);
    }
    forall y | y in q'.pending && y.fingerprint == fp && r.status.Coalesced?
      ensures fp in severities && y.priority == Priority(Worse(severities[fp], severity))
    {
      var x :| x in q.pending && x.fingerprint == fp;
      CoalescedIsRefreshed(q, fp, severity, payload, x, y);
      RanksMean(severity, severities[fp]);
    }
  }

  lemma StepKeepsRanked(p: P.Pool, step: P.Step, severities: map<Key, Severity>)
    requires P.PoolValid(p) && P.Enabled(p, step) && Ranked(p.queue, severities)
    ensures Ranked(P.Apply(p, step).queue, Reported(p, step, severities))
  {
    match step
    case Offer(fp, severity, payload) => OfferKeepsRanked(p.queue, fp, severity, payload, severities);
    case Withdraw(fp) => CancelValid(p.queue, fp);
    case Take(w) => PopValid(p.queue);
    case _ =>
  }

  lemma {:induction false} RunKeepsRanked(p: P.Pool, steps: seq<P.Step>, severities: map<Key, Severity>)
    requires P.PoolValid(p) && P.Runs(p, steps) && Ranked(p.queue, severities)
    ensures P.PoolValid(P.After(p, steps))
    ensures Ranked(P.After(p, steps).queue, ReportedAlong(p, steps, severities))
    decreases |steps|
  {
    if steps != [] {
      P.StepKeepsValid(p, steps[0]);
      StepKeepsRanked(p, steps[0], severities);
      RunKeepsRanked(P.Apply(p, steps[0]), steps[1..], Reported(p, steps[0], severities));
    }
  }

  // Pops and evictions, in terms of severities

  /** x goes before y: it is more severe, or as severe and was admitted earlier. */
  ghost predicate Urgent(x: Item, y: Item, severities: map<Key, Severity>)
    requires x.fingerprint in severities && y.fingerprint in severities
  {
    var a, b := severities[x.fingerprint], severities[y.fingerprint];
    MoreSevere(a, b) || (!MoreSevere(b, a) && x.sequence < y.sequence)
  }

  lemma PendingInOrder(q: Queue, severities: map<Key, Severity>, i: nat, j: nat)
    requires Valid(q) && Ranked(q, severities) && i < j < |q.pending|
    ensures q.pending[i].fingerprint in severities && q.pending[j].fingerprint in severities
    ensures Urgent(q.pending[i], q.pending[j], severities)
  {
    var x, y := q.pending[i], q.pending[j];
    assert x in q.pending && y in q.pending && Before(x, y);
    RanksMean(severities[x.fingerprint], severities[y.fingerprint]);
    RanksMean(severities[y.fingerprint], severities[x.fingerprint]);
  }

  /**
   Over every run: the job a worker takes goes before every other one that is
   pending. So none is taken while a more severe one is pending.
   */
  lemma MostSevereIsTaken(maxPending: nat, workers: nat, steps: seq<P.Step>, w: nat, y: Item)
    requires 1 <= maxPending && P.Runs(P.Fresh(maxPending, workers), steps)
    requires var p := P.After(P.Fresh(maxPending, workers), steps); P.Enabled(p, P.Take(w)) && y in p.queue.pending
    ensures var p := P.After(P.Fresh(maxPending, workers), steps);
            var severities := ReportedAlong(P.Fresh(maxPending, workers), steps, map[]);
            var taken := P.Apply(p, P.Take(w)).workers[w].item;
            && taken in p.queue.pending && taken.fingerprint in severities && y.fingerprint in severities
            && (y == taken || Urgent(taken, y, severities))
  {
    var start := P.Fresh(maxPending, workers);
    P.FreshValid(maxPending, workers);
    RunKeepsRanked(start, steps, map[]);
    var p := P.After(start, steps);
    var j :| 0 <= j < |p.queue.pending| && p.queue.pending[j] == y;
    if j > 0 { PendingInOrder(p.queue, ReportedAlong(start, steps, map[]), 0, j); }
  }

  lemma LastIsLeastUrgent(q: Queue, severities: map<Key, Severity>, y: Item)
    requires Valid(q) && Ranked(q, severities) && y in q.pending
    ensures var last := q.pending[|q.pending| - 1];
            && last in q.pending && last.fingerprint in severities && y.fingerprint in severities
            && (y == last || Urgent(y, last, severities))
  {
    var i :| 0 <= i < |q.pending| && q.pending[i] == y;
    assert q.pending[|q.pending| - 1] in q.pending;
    if i < |q.pending| - 1 { PendingInOrder(q, severities, i, |q.pending| - 1); }
  }

  lemma DisplacesTheLast(q: Queue, severities: map<Key, Severity>, fp: Key, v: Severity, work: Work)
    requires Valid(q) && Ranked(q, severities) && q.accepting && fp !in q.inFlight && !IsPending(q, fp)
    requires |q.pending| == q.maxPending
    ensures var last, r := q.pending[|q.pending| - 1], Enqueue(q, fp, v, work).1;
            && last in q.pending && last.fingerprint in severities
            && if MoreSevere(v, severities[last.fingerprint]) then
                 r.status.Enqueued? && r.evicted == Some(last.fingerprint)
               else
                 r.status.RejectedFull? && r.evicted == None
  {
    var last := q.pending[|q.pending| - 1];
    assert last in q.pending;
    FindMember(q.pending, fp);
    RanksMean(v, severities[last.fingerprint]);
  }

  /**
   Over every run: a new incident that meets a full accepting queue displaces the
   job that goes last, exactly if it is more severe than that job, and is rejected
   otherwise.
   */
  lemma DisplacesExactlyLessSevere(maxPending: nat, workers: nat, steps: seq<P.Step>, fp: Key, v: Severity, work: Work)
    returns (last: Item)
    requires 1 <= maxPending && P.Runs(P.Fresh(maxPending, workers), steps)
    requires var q := P.After(P.Fresh(maxPending, workers), steps).queue;
             q.accepting && fp !in q.inFlight && !IsPending(q, fp) && |q.pending| == q.maxPending
    ensures var q := P.After(P.Fresh(maxPending, workers), steps).queue;
            var severities := ReportedAlong(P.Fresh(maxPending, workers), steps, map[]);
            && last in q.pending && last.fingerprint in severities
            && (forall y :: y in q.pending ==>
                  y.fingerprint in severities && (y == last || Urgent(y, last, severities)))
            && var r := Enqueue(q, fp, v, work).1;
               if MoreSevere(v, severities[last.fingerprint]) then
                 r.status.Enqueued? && r.evicted == Some(last.fingerprint)
               else
                 r.status.RejectedFull? && r.evicted == None
  {
    var start := P.Fresh(maxPending, workers);
    P.FreshValid(maxPending, workers);
    RunKeepsRanked(start, steps, map[]);
    var q, severities := P.After(start, steps).queue, ReportedAlong(start, steps, map[]);
    DisplacesTheLast(q, severities, fp, v, work);
    last := q.pending[|q.pending| - 1];
    forall y | y in q.pending
      ensures y.fingerprint in severities && (y == last || Urgent(y, last, severities))
    {
      LastIsLeastUrgent(q, severities, y);
    }
  }
}
