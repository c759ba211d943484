/**
 The investigation queue as a value: pending items in one sequence sorted by
 (priority, sequence), whose last element is what a full queue gives up.
 */
module QueueModel {
  import opened Domain

  datatype Item = Item(priority: nat, sequence: nat, fingerprint: Key, payload: Work)

  datatype EnqueueStatus = Enqueued | Coalesced | AlreadyInFlight | RejectedFull | RejectedClosed

  datatype CancelStatus = Cancelled | CancelInFlight | NotFound

  datatype EnqueueResult = EnqueueResult(
    status: EnqueueStatus, pending: nat, inFlight: nat, evicted: Option<Key>)

  datatype Counters = Counters(
    enqueued: nat, coalesced: nat, completed: nat, failed: nat, rejected: nat, evicted: nat, cancelled: nat)

  datatype Queue = Queue(
    maxPending: nat,
    pending: seq<Item>,
    inFlight: set<Key>,
    nextSequence: nat,
    accepting: bool,
    counters: Counters)

  const NO_COUNTS := Counters(0, 0, 0, 0, 0, 0, 0)

  function Empty(maxPending: nat): Queue {
    Queue(maxPending, [], {}, 0, true, NO_COUNTS)
  }

  predicate Before(a: Item, b: Item) {
    a.priority < b.priority || (a.priority == b.priority && a.sequence < b.sequence)
  }

  ghost predicate Sorted(s: seq<Item>) {
    forall i, j :: 0 <= i < j < |s| ==> Before(s[i], s[j])
  }

  ghost predicate Distinct(s: seq<Item>) {
    forall i, j :: 0 <= i < j < |s| ==> s[i].fingerprint != s[j].fingerprint && s[i].sequence != s[j].sequence
  }

  ghost predicate IsPending(q: Queue, fp: Key) {
    exists x :: x in q.pending && x.fingerprint == fp
  }

  /** What every queue operation keeps. */
  ghost predicate Valid(q: Queue) {
    && 1 <= q.maxPending
    && |q.pending| <= q.maxPending
    && Sorted(q.pending)
    && Distinct(q.pending)
    && (forall x :: x in q.pending ==> x.sequence < q.nextSequence && x.fingerprint !in q.inFlight)
  }

  /** Puts `x` before the first item that it precedes. */
  function Insert(s: seq<Item>, x: Item): seq<Item> {
    if s == [] || Before(x, s[0]) then [x] + s else [s[0]] + Insert(s[1..], x)
  }

  /** Drops the item of `fp`, if there is one. */
  function Remove(s: seq<Item>, fp: Key): seq<Item> {
    if s == [] then
      []
    else if s[0].fingerprint == fp then
      s[1..]
    else
      [s[0]] + Remove(s[1..], fp)
  }

  function Find(s: seq<Item>, fp: Key): Option<Item> {
    if s == [] then
      None
    else if s[0].fingerprint == fp then
      Some(s[0])
    else
      Find(s[1..], fp)
  }

  function Result(q: Queue, status: EnqueueStatus, evicted: Option<Key>): EnqueueResult {
    EnqueueResult(status, |q.pending|, |q.inFlight|, evicted)
  }

  function Min(a: nat, b: nat): nat {
    if a <= b then a else b
  }

  function Reject(q: Queue): Queue {
    q.(counters := q.counters.(rejected := q.counters.rejected + 1))
  }

  function Coalesce(q: Queue, existing: Item, priority: nat, payload: Work): Queue {
    var refreshed := Item(Min(priority, existing.priority), existing.sequence, existing.fingerprint, payload);
    q.(pending := Insert(Remove(q.pending, existing.fingerprint), refreshed),
       counters := q.counters.(coalesced := q.counters.coalesced + 1))
  }

  function EvictLast(q: Queue): Queue
    requires q.pending != []
  {
    q.(pending := q.pending[..|q.pending| - 1],
       counters := q.counters.(evicted := q.counters.evicted + 1))
  }

  function Admit(q: Queue, priority: nat, fp: Key, payload: Work): Queue {
    q.(pending := Insert(q.pending, Item(priority, q.nextSequence, fp, payload)),
       nextSequence := q.nextSequence + 1,
       counters := q.counters.(enqueued := q.counters.enqueued + 1))
  }

  function Enqueue(q: Queue, fp: Key, severity: Severity, payload: Work): (r: (Queue, EnqueueResult))
    requires 1 <= q.maxPending
  {
    var priority := Priority(severity);
    if !q.accepting then
      (Reject(q), Result(q, RejectedClosed, None))
    else if fp in q.inFlight then
      (q, Result(q, AlreadyInFlight, None))
    else
      match Find(q.pending, fp)
      case Some(existing) =>
        var q' := Coalesce(q, existing, priority, payload);
        (q', Result(q', Coalesced, None))
      case None =>
        if |q.pending| < q.maxPending then
          var q' := Admit(q, priority, fp, payload);
          (q', Result(q', Enqueued, None))
        else
          var worst := q.pending[|q.pending| - 1];
          if priority >= worst.priority then
            (Reject(q), Result(q, RejectedFull, None))
          else
            var q' := Admit(EvictLast(q), priority, fp, payload);
            (q', Result(q', Enqueued, Some(worst.fingerprint)))
  }

  function Cancel(q: Queue, fp: Key): (Queue, CancelStatus) {
    if Find(q.pending, fp).Some? then
      (q.(pending := Remove(q.pending, fp), counters := q.counters.(cancelled := q.counters.cancelled + 1)), Cancelled)
    else
      (q, if fp in q.inFlight then CancelInFlight else NotFound)
  }

  function Pop(q: Queue): Queue
    requires q.pending != []
  {
    q.(pending := q.pending[1..], inFlight := q.inFlight + {q.pending[0].fingerprint})
  }

  function Release(q: Queue, fp: Key): Queue {
    q.(inFlight := q.inFlight - {fp})
  }

  function CountOutcome(q: Queue, succeeded: bool): Queue {
    if succeeded then
      q.(counters := q.counters.(completed := q.counters.completed + 1))
    else
      q.(counters := q.counters.(failed := q.counters.failed + 1))
  }

  function Close(q: Queue): Queue {
    q.(accepting := false)
  }

  // Sorted insertion and removal

  /** Insertion adds its item and nothing else. */
  lemma {:induction false} InsertMembers(s: seq<Item>, x: Item)
    ensures |Insert(s, x)| == |s| + 1
    ensures multiset(Insert(s, x)) == multiset(s) + multiset{x}
    ensures forall y :: y in Insert(s, x) <==> y == x || y in s
  {
    if s == [] || Before(x, s[0]) {
    } else {
      InsertMembers(s[1..], x);
      assert s == [s[0]] + s[1..];
    }
  }

  lemma {:induction false} FindMember(s: seq<Item>, fp: Key)
    ensures Find(s, fp).Some? ==> Find(s, fp).value in s && Find(s, fp).value.fingerprint == fp
    ensures Find(s, fp).None? ==> forall y :: y in s ==> y.fingerprint != fp
  {
    if s != [] && s[0].fingerprint != fp {
      FindMember(s[1..], fp);
      assert s == [s[0]] + s[1..];
    }
  }

  lemma {:induction false} InsertSorted(s: seq<Item>, x: Item)
    requires Sorted(s)
    requires forall y :: y in s ==> y.sequence != x.sequence
    ensures Sorted(Insert(s, x))
  {
    if s == [] || Before(x, s[0]) {
    } else {
      InsertSorted(s[1..], x);
      InsertMembers(s[1..], x);
      var r := Insert(s[1..], x);
      forall j | 0 <= j < |r| ensures Before(s[0], r[j]) {
        assert r[j] in r;
      }
    }
  }

  lemma {:induction false} InsertDistinct(s: seq<Item>, x: Item)
    requires Distinct(s)
    requires forall y :: y in s ==> y.sequence != x.sequence && y.fingerprint != x.fingerprint
    ensures Distinct(Insert(s, x))
  {
    if s == [] || Before(x, s[0]) {
    } else {
      InsertDistinct(s[1..], x);
      InsertMembers(s[1..], x);
      var r := Insert(s[1..], x);
      forall j | 0 <= j < |r| ensures s[0].fingerprint != r[j].fingerprint && s[0].sequence != r[j].sequence {
        assert r[j] in r;
      }
    }
  }

  lemma {:induction false} RemoveKeepsOrder(s: seq<Item>, fp: Key)
    requires Sorted(s) && Distinct(s)
    ensures Sorted(Remove(s, fp)) && Distinct(Remove(s, fp))
    ensures forall y :: y in Remove(s, fp) <==> y in s && y.fingerprint != fp
    ensures |Remove(s, fp)| == if Find(s, fp).Some? then |s| - 1 else |s|
  {
    if s == [] {
    } else if s[0].fingerprint == fp {
    } else {
      RemoveKeepsOrder(s[1..], fp);
      var r := Remove(s[1..], fp);
      forall j | 0 <= j < |r|
        ensures Before(s[0], r[j]) && s[0].fingerprint != r[j].fingerprint && s[0].sequence != r[j].sequence
      {
        assert r[j] in s[1..];
      }
    }
  }

  /** No fingerprint, and no sequence number, belongs to two pending items. */
  lemma UniqueItem(s: seq<Item>, x: Item, y: Item)
    requires Distinct(s) && x in s && y in s
    requires x.fingerprint == y.fingerprint || x.sequence == y.sequence
    ensures x == y
  {
    var i :| 0 <= i < |s| && s[i] == x;
    var j :| 0 <= j < |s| && s[j] == y;
  }

  // Every operation keeps the queue valid

  lemma CoalesceValid(q: Queue, existing: Item, priority: nat, payload: Work)
    requires Valid(q) && existing in q.pending
    ensures Valid(Coalesce(q, existing, priority, payload))
  {
    var rest := Remove(q.pending, existing.fingerprint);
    RemoveKeepsOrder(q.pending, existing.fingerprint);
    var refreshed := Item(Min(priority, existing.priority), existing.sequence, existing.fingerprint, payload);
    forall y | y in rest ensures y.sequence != refreshed.sequence {
      if y.sequence == refreshed.sequence { UniqueItem(q.pending, y, existing); }
    }
    InsertSorted(rest, refreshed);
    InsertDistinct(rest, refreshed);
    InsertMembers(rest, refreshed);
    FindMember(q.pending, existing.fingerprint);
  }

  lemma AdmitValid(q: Queue, priority: nat, fp: Key, payload: Work)
    requires Valid(q) && |q.pending| < q.maxPending && fp !in q.inFlight
    requires forall y :: y in q.pending ==> y.fingerprint != fp
    ensures Valid(Admit(q, priority, fp, payload))
  {
    var item := Item(priority, q.nextSequence, fp, payload);
    InsertSorted(q.pending, item);
    InsertDistinct(q.pending, item);
    InsertMembers(q.pending, item);
  }

  lemma EnqueueValid(q: Queue, fp: Key, severity: Severity, payload: Work)
    requires Valid(q)
    ensures Valid(Enqueue(q, fp, severity, payload).0)
  {
    FindMember(q.pending, fp);
    if q.accepting && fp !in q.inFlight {
      match Find(q.pending, fp)
      case Some(existing) => CoalesceValid(q, existing, Priority(severity), payload);
      case None =>
        if |q.pending| < q.maxPending {
          AdmitValid(q, Priority(severity), fp, payload);
        } else if Priority(severity) < q.pending[|q.pending| - 1].priority {
          AdmitValid(EvictLast(q), Priority(severity), fp, payload);
        }
    }
  }

  lemma CancelValid(q: Queue, fp: Key)
    requires Valid(q)
    ensures Valid(Cancel(q, fp).0)
    ensures forall y :: y in Cancel(q, fp).0.pending <==> y in q.pending && y.fingerprint != fp
    ensures |Cancel(q, fp).0.pending| == if Cancel(q, fp).1.Cancelled? then |q.pending| - 1 else |q.pending|
  {
    FindMember(q.pending, fp);
    RemoveKeepsOrder(q.pending, fp);
  }

  lemma PopValid(q: Queue)
    requires Valid(q) && q.pending != []
    ensures Valid(Pop(q))
    ensures forall y :: y in q.pending <==> y == q.pending[0] || y in Pop(q).pending
  {
    assert q.pending == [q.pending[0]] + q.pending[1..];
  }

  lemma CoalesceItems(q: Queue, existing: Item, priority: nat, payload: Work)
    requires Valid(q) && existing in q.pending
    ensures var q' := Coalesce(q, existing, priority, payload);
            && |q'.pending| == |q.pending|
            && (forall y: Item :: y.fingerprint != existing.fingerprint ==> (y in q'.pending <==> y in q.pending))
            && (forall y :: y in q'.pending && y.fingerprint == existing.fingerprint ==>
                  y == Item(Min(priority, existing.priority), existing.sequence, existing.fingerprint, payload))
  {
    RemoveKeepsOrder(q.pending, existing.fingerprint);
    FindMember(q.pending, existing.fingerprint);
    InsertMembers(Remove(q.pending, existing.fingerprint),
                  Item(Min(priority, existing.priority), existing.sequence, existing.fingerprint, payload));
  }

  lemma EvictItems(q: Queue)
    requires Valid(q) && q.pending != []
    ensures Valid(EvictLast(q))
    ensures forall y :: y in q.pending <==> y == q.pending[|q.pending| - 1] || y in EvictLast(q).pending
  {
    assert q.pending == q.pending[..|q.pending| - 1] + [q.pending[|q.pending| - 1]];
  }

  /**
   How one enqueue changes the pending items: everything but the refreshed or
   evicted item stays, and at most the offered job is new.
   */
  lemma EnqueueItems(q: Queue, fp: Key, severity: Severity, payload: Work)
    requires Valid(q)
    ensures var (q', result) := Enqueue(q, fp, severity, payload);
            && q'.inFlight == q.inFlight
            && (forall y :: y in q'.pending && y.fingerprint != fp ==> y in q.pending)
            && (forall y :: y in q.pending && y.fingerprint != fp && result.evicted != Some(y.fingerprint) ==>
                  y in q'.pending)
            && (forall y :: y in q'.pending && y.fingerprint == fp && y !in q.pending ==> y.payload == payload)
            && (fp in q.inFlight ==> q'.pending == q.pending)
  {
    FindMember(q.pending, fp);
    var priority := Priority(severity);
    match Find(q.pending, fp)
    case Some(existing) => CoalesceItems(q, existing, priority, payload);
    case None =>
      InsertMembers(q.pending, Item(priority, q.nextSequence, fp, payload));
      if |q.pending| == q.maxPending {
        EvictItems(q);
        InsertMembers(EvictLast(q).pending, Item(priority, q.nextSequence, fp, payload));
      }
  }

  lemma IndexOf(s: seq<Item>, x: Item) returns (k: nat)
    requires x in s
    ensures k < |s| && s[k] == x
  {
    k :| 0 <= k < |s| && s[k] == x;
  }

  /** A job that is newly admitted is among the pending ones. */
  lemma EnqueuedIsPending(q: Queue, fp: Key, severity: Severity, payload: Work) returns (k: nat)
    requires Valid(q) && Enqueue(q, fp, severity, payload).1.status.Enqueued?
    ensures var q' := Enqueue(q, fp, severity, payload).0;
            k < |q'.pending| && q'.pending[k].fingerprint == fp && q'.pending[k].payload == payload
  {
    var x := Item(Priority(severity), q.nextSequence, fp, payload);
    var kept := if |q.pending| == q.maxPending then EvictLast(q).pending else q.pending;
    InsertMembers(kept, x);
    assert Enqueue(q, fp, severity, payload).0.pending == Insert(kept, x);
    k := IndexOf(Insert(kept, x), x);
  }

  /** What one enqueue does to the counters and to the number of pending items. */
  lemma EnqueueCounts(q: Queue, fp: Key, severity: Severity, payload: Work)
    requires Valid(q)
    ensures var q' := Enqueue(q, fp, severity, payload).0;
            var c, c' := q.counters, q'.counters;
            && c'.enqueued - c'.evicted - |q'.pending| == c.enqueued - c.evicted - |q.pending|
            && c'.cancelled == c.cancelled && c'.completed == c.completed && c'.failed == c.failed
  {
    FindMember(q.pending, fp);
    match Find(q.pending, fp)
    case Some(existing) => CoalesceItems(q, existing, Priority(severity), payload);
    case None =>
      InsertMembers(q.pending, Item(Priority(severity), q.nextSequence, fp, payload));
      if |q.pending| == q.maxPending {
        InsertMembers(EvictLast(q).pending, Item(Priority(severity), q.nextSequence, fp, payload));
      }
  }
}
