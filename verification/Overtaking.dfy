/** Bounded overtaking: how long a critical job can wait while the pool runs. */
module Overtaking {
  import opened Domain
  import opened QueueModel
  import opened WorkerPool

  /** `fp` is pending as critical, under sequence number `n`. */
  ghost predicate CriticalAt(q: Queue, fp: Key, n: nat) {
    exists x :: x in q.pending && x.fingerprint == fp && x.priority == 0 && x.sequence == n
  }

  /** The pending incidents that were admitted earlier. */
  ghost function Earlier(q: Queue, n: nat): set<Key> {
    set x | x in q.pending && x.sequence < n :: x.fingerprint
  }

  /** Some step of the run takes `fp` out of the queue to work on it. */
  ghost predicate Taken(p: Pool, steps: seq<Step>, fp: Key)
    requires Runs(p, steps)
    decreases |steps|
  {
    steps != [] && (TakesNow(p, steps[0], fp) || Taken(Apply(p, steps[0]), steps[1..], fp))
  }

  predicate TakesNow(p: Pool, s: Step, fp: Key)
    requires Enabled(p, s)
  {
    s.Take? && p.queue.pending[0].fingerprint == fp
  }

  ghost predicate NeverWithdrawn(steps: seq<Step>, fp: Key) {
    forall s :: s in steps ==> s != Withdraw(fp)
  }

  function CountTakes(steps: seq<Step>): nat {
    if steps == [] then 0 else (if steps[0].Take? then 1 else 0) + CountTakes(steps[1..])
  }

  /** An enqueue gives no incident a smaller sequence number than it had. */
  lemma EnqueueSequences(q: Queue, fp: Key, severity: Severity, payload: Work, y: Item)
    requires QueueModel.Valid(q) && y in Enqueue(q, fp, severity, payload).0.pending
    ensures || y.sequence >= q.nextSequence
            || exists x :: x in q.pending && x.fingerprint == y.fingerprint && x.sequence == y.sequence
  {
    FindMember(q.pending, fp);
    match Find(q.pending, fp)
    case Some(existing) => CoalesceItems(q, existing, Priority(severity), payload);
    case None =>
      InsertMembers(q.pending, Item(Priority(severity), q.nextSequence, fp, payload));
      if |q.pending| == q.maxPending {
        EvictItems(q);
        InsertMembers(EvictLast(q).pending, Item(Priority(severity), q.nextSequence, fp, payload));
      }
  }

  lemma EvictedIsNotCritical(q: Queue, fp: Key, severity: Severity, payload: Work, x: Item)
    requires QueueModel.Valid(q) && x in q.pending && x.priority == 0
    ensures Enqueue(q, fp, severity, payload).1.evicted != Some(x.fingerprint)
  {
    if q.pending != [] && q.pending[|q.pending| - 1].fingerprint == x.fingerprint {
      UniqueItem(q.pending, x, q.pending[|q.pending| - 1]);
    }
  }

  /** Only a lower-priority item is ever evicted, and coalescing never lowers a priority. */
  lemma EnqueueKeepsCritical(q: Queue, fp: Key, n: nat, other: Key, severity: Severity, payload: Work)
    requires QueueModel.Valid(q) && CriticalAt(q, fp, n)
    ensures var q' := Enqueue(q, other, severity, payload).0;
            CriticalAt(q', fp, n) && Earlier(q', n) <= Earlier(q, n)
  {
    var (q', result) := Enqueue(q, other, severity, payload);
    var x :| x in q.pending && x.fingerprint == fp && x.priority == 0 && x.sequence == n;
    FindMember(q.pending, other);
    EnqueueItems(q, other, severity, payload);
    EvictedIsNotCritical(q, other, severity, payload, x);
    if Find(q.pending, other).Some? && other == fp && q' != q {
      var existing := Find(q.pending, other).value;
      UniqueItem(q.pending, x, existing);
      if q.accepting && fp !in q.inFlight {
        RemoveKeepsOrder(q.pending, fp);
        var refreshed := Item(Min(Priority(severity), 0), n, fp, payload);
        InsertMembers(Remove(q.pending, fp), refreshed);
        assert refreshed in q'.pending;
      }
    } else {
      assert x in q'.pending;
    }
    forall f | f in Earlier(q', n) ensures f in Earlier(q, n) {
      var y :| y in q'.pending && y.sequence < n && y.fingerprint == f;
      EnqueueSequences(q, other, severity, payload, y);
    }
  }

  lemma CancelKeepsCritical(q: Queue, fp: Key, n: nat, other: Key)
    requires QueueModel.Valid(q) && CriticalAt(q, fp, n) && other != fp
    ensures var q' := Cancel(q, other).0;
            CriticalAt(q', fp, n) && Earlier(q', n) <= Earlier(q, n)
  {
    CancelValid(q, other);
    var x :| x in q.pending && x.fingerprint == fp && x.priority == 0 && x.sequence == n;
    assert x in Cancel(q, other).0.pending;
  }

  /** Whatever is popped before a critical job is critical and was admitted earlier. */
  lemma PopKeepsCritical(q: Queue, fp: Key, n: nat)
    requires QueueModel.Valid(q) && CriticalAt(q, fp, n) && q.pending[0].fingerprint != fp
    ensures var first := q.pending[0].fingerprint;
            && CriticalAt(Pop(q), fp, n)
            && first in Earlier(q, n) && Earlier(Pop(q), n) <= Earlier(q, n) - {first}
  {
    var x :| x in q.pending && x.fingerprint == fp && x.priority == 0 && x.sequence == n;
    PopValid(q);
    var i :| 0 <= i < |q.pending| && q.pending[i] == x;
    assert x in Pop(q).pending;
    forall y | y in Pop(q).pending ensures y.fingerprint != q.pending[0].fingerprint {
      var j :| 0 <= j < |Pop(q).pending| && Pop(q).pending[j] == y;
      assert q.pending[j + 1] == y;
    }
  }

  lemma StepKeepsCritical(p: Pool, s: Step, fp: Key, n: nat)
    requires PoolValid(p) && Enabled(p, s) && CriticalAt(p.queue, fp, n)
    requires s != Withdraw(fp) && !TakesNow(p, s, fp)
    ensures CriticalAt(Apply(p, s).queue, fp, n)
    ensures |Earlier(Apply(p, s).queue, n)| + CountTakes([s]) <= |Earlier(p.queue, n)|
  {
    var e, e' := Earlier(p.queue, n), Earlier(Apply(p, s).queue, n);
    match s
    case Offer(other, severity, payload) =>
      EnqueueKeepsCritical(p.queue, fp, n, other, severity, payload);
      Smaller(e', e);
    case Withdraw(other) =>
      CancelKeepsCritical(p.queue, fp, n, other);
      Smaller(e', e);
    case Take(w) =>
      PopKeepsCritical(p.queue, fp, n);
      Smaller(e', e - {p.queue.pending[0].fingerprint});
    case _ =>
      assert Apply(p, s).queue.pending == p.queue.pending;
      assert e' == e;
  }

  lemma Smaller(a: set<Key>, b: set<Key>)
    requires a <= b
    ensures |a| <= |b|
  {
    assert b == a + (b - a);
  }

  /** As long as the job is neither withdrawn nor taken, each job taken was one of those admitted earlier. */
  lemma {:induction false} WaitingJobStaysCritical(p: Pool, steps: seq<Step>, fp: Key, n: nat)
    requires PoolValid(p) && Runs(p, steps) && CriticalAt(p.queue, fp, n)
    requires NeverWithdrawn(steps, fp) && !Taken(p, steps, fp)
    ensures CriticalAt(After(p, steps).queue, fp, n)
    ensures CountTakes(steps) + |Earlier(After(p, steps).queue, n)| <= |Earlier(p.queue, n)|
    decreases |steps|
  {
    if steps != [] {
      assert steps[0] in steps && forall s :: s in steps[1..] ==> s in steps;
      StepKeepsValid(p, steps[0]);
      StepKeepsCritical(p, steps[0], fp, n);
      WaitingJobStaysCritical(Apply(p, steps[0]), steps[1..], fp, n);
    }
  }

  lemma {:induction false} FingerprintsBounded(s: seq<Item>)
    ensures |set x | x in s :: x.fingerprint| <= |s|
  {
    if s == [] {
      assert (set x | x in s :: x.fingerprint) == {};
    } else {
      var rest := s[1..];
      FingerprintsBounded(rest);
      assert s == [s[0]] + rest;
      assert (set x | x in s :: x.fingerprint) == {s[0].fingerprint} + (set x | x in rest :: x.fingerprint);
    }
  }

  lemma EarlierBounded(q: Queue, fp: Key, n: nat)
    requires QueueModel.Valid(q) && CriticalAt(q, fp, n)
    ensures |Earlier(q, n)| <= q.maxPending - 1
  {
    var all := set x | x in q.pending :: x.fingerprint;
    FingerprintsBounded(q.pending);
    var x :| x in q.pending && x.fingerprint == fp && x.priority == 0 && x.sequence == n;
    forall y | y in q.pending && y.sequence < n ensures y.fingerprint != fp {
      if y.fingerprint == fp { UniqueItem(q.pending, x, y); }
    }
    assert fp in all && fp !in Earlier(q, n);
    Smaller(Earlier(q, n) + {fp}, all);
  }

  /**
   A job that is pending as critical and is not cancelled is taken after at most
   `maxPending - 1` other jobs, whatever else happens; in particular it is never evicted.
   */
  lemma CriticalJobIsTakenInTime(p: Pool, steps: seq<Step>, fp: Key, n: nat)
    requires PoolValid(p) && Runs(p, steps) && CriticalAt(p.queue, fp, n) && NeverWithdrawn(steps, fp)
    ensures CountTakes(steps) >= p.queue.maxPending ==> Taken(p, steps, fp)
    ensures !Taken(p, steps, fp) ==> CriticalAt(After(p, steps).queue, fp, n)
  {
    if !Taken(p, steps, fp) {
      WaitingJobStaysCritical(p, steps, fp, n);
      EarlierBounded(p.queue, fp, n);
    }
  }
}
