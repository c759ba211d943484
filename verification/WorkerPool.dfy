/**
 The queue together with the workers that drain it. A worker counts the outcome
 of its job before it releases the in-flight entry, so it has three busy phases.
 */
module WorkerPool {
  import opened Domain
  import opened QueueModel

  /** How far the handler of a job has come; the awaits of one investigation. */
  datatype Stage =
    | Started
    | Investigating
    | Resolving                  // the prior label set is being resolved
    | ResolveReplied(ok: bool)
    | Delivering                 // the new payload is being delivered
    | DeliveryReplied(ok: bool)

  datatype Phase =
    | Idle
    | Running(item: Item, stage: Stage)
    | Counted(item: Item)        // completed or failed, not yet released
    | Interrupted(item: Item)    // cancelled: neither completed nor failed, not yet released
    | Exited

  /** `lost` counts the interrupted jobs, which the program itself does not count. */
  datatype Pool = Pool(queue: Queue, workers: seq<Phase>, closing: bool, lost: nat)

  datatype Step =
    | Offer(fp: Key, severity: Severity, payload: Work)
    | Withdraw(fp: Key)
    | Take(w: nat)
    | Advance(w: nat, stage: Stage)
    | Finish(w: nat, succeeded: bool)
    | Interrupt(w: nat)
    | LetGo(w: nat)
    | Shut
    | Leave(w: nat)

  function Fresh(maxPending: nat, workers: nat): Pool {
    Pool(Empty(maxPending), seq(workers, _ => Idle), false, 0)
  }

  predicate Busy(phase: Phase) {
    phase.Running? || phase.Counted? || phase.Interrupted?
  }

  predicate Holds(p: Pool, w: nat, fp: Key) {
    w < |p.workers| && Busy(p.workers[w]) && p.workers[w].item.fingerprint == fp
  }

  predicate Enabled(p: Pool, s: Step) {
    match s
    case Offer(_, _, _) => 1 <= p.queue.maxPending
    case Withdraw(_) => true
    case Take(w) => w < |p.workers| && p.workers[w].Idle? && p.queue.pending != []
    case Advance(w, _) => w < |p.workers| && p.workers[w].Running?
    case Finish(w, _) => w < |p.workers| && p.workers[w].Running?
    case Interrupt(w) => w < |p.workers| && p.workers[w].Running?
    case LetGo(w) => w < |p.workers| && (p.workers[w].Counted? || p.workers[w].Interrupted?)
    case Shut => true
    case Leave(w) => w < |p.workers| && p.workers[w].Idle? && p.closing
  }

  function Set(p: Pool, w: nat, phase: Phase): Pool
    requires w < |p.workers|
  {
    p.(workers := p.workers[w := phase])
  }

  function Apply(p: Pool, s: Step): Pool
    requires Enabled(p, s)
  {
    match s
    case Offer(fp, severity, payload) => p.(queue := Enqueue(p.queue, fp, severity, payload).0)
    case Withdraw(fp) => p.(queue := Cancel(p.queue, fp).0)
    case Take(w) => Set(p.(queue := Pop(p.queue)), w, Running(p.queue.pending[0], Started))
    case Advance(w, stage) => Set(p, w, Running(p.workers[w].item, stage))
    case Finish(w, succeeded) => Set(p.(queue := CountOutcome(p.queue, succeeded)), w, Counted(p.workers[w].item))
    case Interrupt(w) => Set(p.(lost := p.lost + 1), w, Interrupted(p.workers[w].item))
    case LetGo(w) =>
      Set(p.(queue := Release(p.queue, p.workers[w].item.fingerprint)), w,
          if p.workers[w].Counted? then Idle else Exited)
    case Shut => p.(queue := Close(p.queue), closing := true)
    case Leave(w) => Set(p, w, Exited)
  }

  ghost predicate Runs(p: Pool, steps: seq<Step>)
    decreases |steps|
  {
    steps == [] || (Enabled(p, steps[0]) && Runs(Apply(p, steps[0]), steps[1..]))
  }

  ghost function After(p: Pool, steps: seq<Step>): Pool
    requires Runs(p, steps)
    decreases |steps|
  {
    if steps == [] then p else After(Apply(p, steps[0]), steps[1..])
  }

  /** The in-flight set is exactly what the workers hold, and no two hold the same incident. */
  ghost predicate Exclusive(p: Pool) {
    && (forall w, fp :: Holds(p, w, fp) ==> fp in p.queue.inFlight)
    && (forall fp :: fp in p.queue.inFlight ==> exists w :: Holds(p, w, fp))
    && (forall v, w, fp :: Holds(p, v, fp) && Holds(p, w, fp) ==> v == w)
  }

  ghost predicate PoolValid(p: Pool) {
    QueueModel.Valid(p.queue) && Exclusive(p)
  }

  function CountRunning(workers: seq<Phase>): nat {
    if workers == [] then 0 else (if workers[0].Running? then 1 else 0) + CountRunning(workers[1..])
  }

  /** Every job ever admitted is in exactly one place. */
  ghost predicate Conserved(p: Pool) {
    var c := p.queue.counters;
    c.enqueued == |p.queue.pending| + c.evicted + c.cancelled + c.completed + c.failed
                  + CountRunning(p.workers) + p.lost
  }

  lemma {:induction false} CountRunningUpdate(workers: seq<Phase>, w: nat, phase: Phase)
    requires w < |workers|
    ensures CountRunning(workers[w := phase]) + (if workers[w].Running? then 1 else 0)
         == CountRunning(workers) + (if phase.Running? then 1 else 0)
  {
    if w == 0 {
      assert workers[w := phase][1..] == workers[1..];
    } else {
      assert workers[w := phase][1..] == workers[1..][w - 1 := phase];
      CountRunningUpdate(workers[1..], w - 1, phase);
    }
  }

  lemma {:induction false} NoneRunning(workers: seq<Phase>)
    requires forall w :: 0 <= w < |workers| ==> workers[w].Idle?
    ensures CountRunning(workers) == 0
  {
    if workers != [] { NoneRunning(workers[1..]); }
  }

  /** One entry a worker at most. */
  lemma {:induction false} HeldBounded(workers: seq<Phase>, held: set<Key>)
    requires forall fp :: fp in held ==>
               exists w :: 0 <= w < |workers| && Busy(workers[w]) && workers[w].item.fingerprint == fp
    ensures |held| <= |workers|
  {
    if workers == [] {
      assert held == {};
    } else {
      var n := |workers| - 1;
      var rest := if Busy(workers[n]) then held - {workers[n].item.fingerprint} else held;
      forall fp | fp in rest
        ensures exists w :: 0 <= w < n && Busy(workers[..n][w]) && workers[..n][w].item.fingerprint == fp
      {
        var w :| 0 <= w < |workers| && Busy(workers[w]) && workers[w].item.fingerprint == fp;
        assert workers[..n][w] == workers[w];
      }
      HeldBounded(workers[..n], rest);
      assert held <= rest + (if Busy(workers[n]) then {workers[n].item.fingerprint} else {});
    }
  }

  lemma InFlightBounded(p: Pool)
    requires PoolValid(p)
    ensures |p.queue.inFlight| <= |p.workers|
  {
    forall fp | fp in p.queue.inFlight
      ensures exists w :: 0 <= w < |p.workers| && Busy(p.workers[w]) && p.workers[w].item.fingerprint == fp
    {
      var w :| Holds(p, w, fp);
    }
    HeldBounded(p.workers, p.queue.inFlight);
  }

  lemma StepKeepsQueueValid(p: Pool, s: Step)
    requires PoolValid(p) && Enabled(p, s)
    ensures QueueModel.Valid(Apply(p, s).queue)
  {
    match s
    case Offer(fp, severity, payload) => EnqueueValid(p.queue, fp, severity, payload);
    case Withdraw(fp) => CancelValid(p.queue, fp);
    case Take(w) => PopValid(p.queue);
    case _ =>
  }

  lemma TakeExclusive(p: Pool, w: nat)
    requires PoolValid(p) && Enabled(p, Take(w))
    ensures Exclusive(Apply(p, Take(w)))
  {
    var item, p' := p.queue.pending[0], Apply(p, Take(w));
    assert item in p.queue.pending;
    assert Holds(p', w, item.fingerprint);
    forall v, fp | v != w ensures Holds(p', v, fp) == Holds(p, v, fp) {}
    forall fp | fp in p'.queue.inFlight ensures exists v :: Holds(p', v, fp) {
      if fp != item.fingerprint {
        var v :| Holds(p, v, fp);
        assert Holds(p', v, fp);
      }
    }
  }

  lemma LetGoExclusive(p: Pool, w: nat)
    requires PoolValid(p) && Enabled(p, LetGo(w))
    ensures Exclusive(Apply(p, LetGo(w)))
  {
    var p' := Apply(p, LetGo(w));
    assert Holds(p, w, p.workers[w].item.fingerprint);
    forall v, fp ensures Holds(p', v, fp) == (v != w && Holds(p, v, fp)) {}
    forall fp | fp in p'.queue.inFlight ensures exists v :: Holds(p', v, fp) {
      var v :| Holds(p, v, fp);
      assert Holds(p', v, fp);
    }
  }

  /** The steps that change neither what is in flight nor who holds it. */
  lemma SameHoldersExclusive(p: Pool, p': Pool)
    requires Exclusive(p) && p'.queue.inFlight == p.queue.inFlight
    requires forall v, fp :: Holds(p', v, fp) == Holds(p, v, fp)
    ensures Exclusive(p')
  {
    forall fp | fp in p'.queue.inFlight ensures exists v :: Holds(p', v, fp) {
      var v :| Holds(p, v, fp);
      assert Holds(p', v, fp);
    }
  }

  lemma StepKeepsValid(p: Pool, s: Step)
    requires PoolValid(p) && Enabled(p, s)
    ensures PoolValid(Apply(p, s))
    ensures |Apply(p, s).workers| == |p.workers|
  {
    StepKeepsQueueValid(p, s);
    match s
    case Take(w) => TakeExclusive(p, w);
    case LetGo(w) => LetGoExclusive(p, w);
    case Offer(fp, severity, payload) =>
      EnqueueItems(p.queue, fp, severity, payload);
      SameHoldersExclusive(p, Apply(p, s));
    case _ => SameHoldersExclusive(p, Apply(p, s));
  }

  lemma StepConserves(p: Pool, s: Step)
    requires PoolValid(p) && Conserved(p) && Enabled(p, s)
    ensures Conserved(Apply(p, s))
  {
    match s
    case Offer(fp, severity, payload) => EnqueueCounts(p.queue, fp, severity, payload);
    case Withdraw(fp) => CancelValid(p.queue, fp);
    case Take(w) => CountRunningUpdate(p.workers, w, Running(p.queue.pending[0], Started));
    case Advance(w, stage) => CountRunningUpdate(p.workers, w, Running(p.workers[w].item, stage));
    case Finish(w, _) => CountRunningUpdate(p.workers, w, Counted(p.workers[w].item));
    case Interrupt(w) => CountRunningUpdate(p.workers, w, Interrupted(p.workers[w].item));
    case LetGo(w) => CountRunningUpdate(p.workers, w, if p.workers[w].Counted? then Idle else Exited);
    case Shut =>
    case Leave(w) => CountRunningUpdate(p.workers, w, Exited);
  }

  lemma {:induction false} RunKeeps(p: Pool, steps: seq<Step>)
    requires PoolValid(p) && Conserved(p) && Runs(p, steps)
    ensures PoolValid(After(p, steps)) && Conserved(After(p, steps))
    ensures |After(p, steps).workers| == |p.workers|
    decreases |steps|
  {
    if steps != [] {
      StepKeepsValid(p, steps[0]);
      StepConserves(p, steps[0]);
      RunKeeps(Apply(p, steps[0]), steps[1..]);
    }
  }

  lemma FreshValid(maxPending: nat, workers: nat)
    requires 1 <= maxPending
    ensures PoolValid(Fresh(maxPending, workers)) && Conserved(Fresh(maxPending, workers))
  {
    NoneRunning(Fresh(maxPending, workers).workers);
  }

  /**
   Over every interleaving of producers and workers: pending is bounded and
   disjoint from in-flight, no two workers hold one incident, in-flight never
   exceeds the worker count, and no admitted job is unaccounted for.
   */
  lemma EveryRunIsExclusiveAndConserving(maxPending: nat, workers: nat, steps: seq<Step>)
    requires 1 <= maxPending && Runs(Fresh(maxPending, workers), steps)
    ensures var p := After(Fresh(maxPending, workers), steps);
            && PoolValid(p)
            && |p.queue.inFlight| <= workers
            && Conserved(p)
  {
    FreshValid(maxPending, workers);
    RunKeeps(Fresh(maxPending, workers), steps);
    InFlightBounded(After(Fresh(maxPending, workers), steps));
  }

  // Outcomes along a run

  function CountFinished(steps: seq<Step>, succeeded: bool): nat {
    if steps == [] then
      0
    else
      (if steps[0].Finish? && steps[0].succeeded == succeeded then 1 else 0) + CountFinished(steps[1..], succeeded)
  }

  function CountInterrupted(steps: seq<Step>): nat {
    if steps == [] then 0 else (if steps[0].Interrupt? then 1 else 0) + CountInterrupted(steps[1..])
  }

  lemma {:induction false} OutcomesAddUp(p: Pool, steps: seq<Step>)
    requires Runs(p, steps)
    ensures var q := After(p, steps);
            && q.queue.counters.completed == p.queue.counters.completed + CountFinished(steps, true)
            && q.queue.counters.failed == p.queue.counters.failed + CountFinished(steps, false)
            && q.lost == p.lost + CountInterrupted(steps)
    decreases |steps|
  {
    if steps != [] { OutcomesAddUp(Apply(p, steps[0]), steps[1..]); }
  }

  /** Over every run the completed, failed and lost jobs are exactly those that ended so. */
  lemma OutcomesAreCounted(maxPending: nat, workers: nat, steps: seq<Step>)
    requires Runs(Fresh(maxPending, workers), steps)
    ensures var p := After(Fresh(maxPending, workers), steps);
            && p.queue.counters.completed == CountFinished(steps, true)
            && p.queue.counters.failed == CountFinished(steps, false)
            && p.lost == CountInterrupted(steps)
  {
    OutcomesAddUp(Fresh(maxPending, workers), steps);
  }

  /** Cancelled or gone for good. */
  predicate Leaving(p: Pool, w: nat) {
    w < |p.workers| && (p.workers[w].Interrupted? || p.workers[w].Exited?)
  }

  /** Over every run: a worker that was cancelled takes no further job. */
  lemma {:induction false} CancelledWorkerLeaves(p: Pool, steps: seq<Step>, w: nat)
    requires Runs(p, steps) && Leaving(p, w)
    ensures Leaving(After(p, steps), w)
    decreases |steps|
  {
    if steps != [] { CancelledWorkerLeaves(Apply(p, steps[0]), steps[1..], w); }
  }

  /** A worker that finished its job and released it is ready for the next. */
  lemma FinishedWorkerStays(p: Pool, w: nat, succeeded: bool)
    requires Enabled(p, Finish(w, succeeded))
    ensures var released := Apply(Apply(p, Finish(w, succeeded)), LetGo(w));
            released.workers[w].Idle? && released.queue.inFlight == p.queue.inFlight - {p.workers[w].item.fingerprint}
  {
  }

  // Shutdown

  /**
   Over every run after a shutdown: nothing is admitted any more, so what is pending
   only shrinks, and every offer is answered as closed.
   */
  lemma {:induction false} ShutIsFinal(p: Pool, steps: seq<Step>)
    requires Runs(Apply(p, Shut), steps)
    ensures var q := After(Apply(p, Shut), steps);
            && q.closing && !q.queue.accepting && (forall x :: x in q.queue.pending ==> x in p.queue.pending)
            && forall fp, severity, payload :: 1 <= q.queue.maxPending ==>
                 QueueModel.Enqueue(q.queue, fp, severity, payload).1.status.RejectedClosed?
  {
    ClosedRun(Apply(p, Shut), steps);
  }

  lemma {:induction false} ClosedRun(p: Pool, steps: seq<Step>)
    requires Runs(p, steps) && p.closing && !p.queue.accepting
    ensures var q := After(p, steps);
            q.closing && !q.queue.accepting && forall x :: x in q.queue.pending ==> x in p.queue.pending
    decreases |steps|
  {
    if steps != [] {
      if steps[0].Withdraw? { RemovesOnly(p.queue.pending, steps[0].fp); }
      ClosedRun(Apply(p, steps[0]), steps[1..]);
    }
  }

  lemma {:induction false} RemovesOnly(s: seq<Item>, fp: Key)
    ensures forall x :: x in Remove(s, fp) ==> x in s
  {
    if s != [] && s[0].fingerprint != fp {
      RemovesOnly(s[1..], fp);
      assert s == [s[0]] + s[1..];
    }
  }

  /** Over every run: a worker is there until the pool shuts down or it is cancelled. */
  lemma {:induction false} StaysUntilShutdown(p: Pool, steps: seq<Step>, w: nat)
    requires Runs(p, steps) && !p.closing && w < |p.workers| && !Leaving(p, w)
    requires forall s :: s in steps ==> !s.Shut? && s != Interrupt(w)
    ensures var q := After(p, steps); !q.closing && w < |q.workers| && !Leaving(q, w)
    decreases |steps|
  {
    if steps != [] {
      assert steps[0] in steps && forall s :: s in steps[1..] ==> s in steps;
      StaysUntilShutdown(Apply(p, steps[0]), steps[1..], w);
    }
  }

  /** Once the pool is shut down an idle worker may leave, and is then gone. */
  lemma IdleWorkerMayLeave(p: Pool, w: nat)
    requires w < |p.workers| && p.workers[w].Idle?
    ensures Enabled(p, Leave(w)) <==> p.closing
    ensures p.closing ==> Leaving(Apply(p, Leave(w)), w) && Apply(p, Leave(w)).queue == p.queue
  {
  }
}
