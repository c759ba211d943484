/** A heap and a dictionary that represent one sorted sequence of items. */
module QueueStorage {
  import opened Domain
  import opened QueueModel
  import opened HeapQ

  lemma FirstIsLeast(s: seq<Item>, x: Item)
    requires Sorted(s) && x in s && forall y :: y in s ==> !Before(y, x)
    ensures x == s[0]
  {
    var i :| 0 <= i < |s| && s[i] == x;
    assert s[0] in s;
  }

  lemma LastIsGreatest(s: seq<Item>, x: Item)
    requires Sorted(s) && x in s && forall y :: y in s ==> !Before(x, y)
    ensures x == s[|s| - 1]
  {
    var i :| 0 <= i < |s| && s[i] == x;
    assert s[|s| - 1] in s;
  }

  lemma SameMembers(a: seq<Item>, b: seq<Item>)
    requires multiset(a) == multiset(b)
    ensures |a| == |b| && forall x :: x in a <==> x in b
  {
    assert |multiset(a)| == |a| && |multiset(b)| == |b|;
    forall x ensures x in a <==> x in b {
      assert x in multiset(a) <==> x in multiset(b);
    }
  }

  /** Taking an item out of the sorted sequence takes it out of the multiset. */
  lemma {:induction false} RemoveMultiset(s: seq<Item>, x: Item)
    requires Distinct(s) && x in s
    ensures multiset(Remove(s, x.fingerprint)) + multiset{x} == multiset(s)
  {
    assert s == [s[0]] + s[1..];
    if s[0].fingerprint == x.fingerprint {
      UniqueItem(s, s[0], x);
    } else {
      RemoveMultiset(s[1..], x);
    }
  }

  /** The dictionary of a list of items, each under its own fingerprint. */
  ghost function Index(s: seq<Item>): map<Key, Item> {
    if s == [] then map[] else Index(s[1..])[s[0].fingerprint := s[0]]
  }

  lemma {:induction false} IndexMembers(s: seq<Item>, fp: Key)
    ensures fp in Index(s) <==> Find(s, fp).Some?
    ensures fp in Index(s) ==> Index(s)[fp] == Find(s, fp).value
    ensures fp in Index(s) ==> Index(s)[fp] in s && Index(s)[fp].fingerprint == fp
    ensures fp !in Index(s) ==> forall y :: y in s ==> y.fingerprint != fp
  {
    if s != [] {
      IndexMembers(s[1..], fp);
      assert s == [s[0]] + s[1..];
    }
  }

  lemma {:induction false} IndexRemove(s: seq<Item>, fp: Key)
    requires Distinct(s)
    ensures Index(Remove(s, fp)) == Index(s) - {fp}
  {
    if s != [] {
      IndexRemove(s[1..], fp);
      IndexMembers(s[1..], s[0].fingerprint);
      if s[0].fingerprint != fp {
        assert Remove(s, fp)[1..] == Remove(s[1..], fp);
      }
    }
  }

  lemma {:induction false} IndexInsert(s: seq<Item>, x: Item)
    requires forall y :: y in s ==> y.fingerprint != x.fingerprint
    ensures Index(Insert(s, x)) == Index(s)[x.fingerprint := x]
  {
    if s == [] || Before(x, s[0]) {
      assert ([x] + s)[1..] == s;
    } else {
      IndexInsert(s[1..], x);
      assert ([s[0]] + Insert(s[1..], x))[1..] == Insert(s[1..], x);
    }
  }

  /** A heap and a dictionary that together hold the items of a sorted sequence. */
  ghost predicate Represents(heap: seq<Item>, index: map<Key, Item>, items: seq<Item>) {
    IsHeap(heap) && multiset(heap) == multiset(items) && index == Index(items)
  }

  lemma FindRemoved(s: seq<Item>, fp: Key)
    requires Sorted(s) && Distinct(s)
    ensures Find(Remove(s, fp), fp).None?
  {
    RemoveKeepsOrder(s, fp);
    FindMember(Remove(s, fp), fp);
  }

  /** Evicting the worst item is dropping the last of the sorted sequence. */
  lemma {:induction false} RemoveLast(s: seq<Item>)
    requires s != [] && Distinct(s)
    ensures Remove(s, s[|s| - 1].fingerprint) == s[..|s| - 1]
  {
    if |s| > 1 {
      assert s[1..][|s| - 2] == s[|s| - 1];
      RemoveLast(s[1..]);
      assert s[..|s| - 1] == [s[0]] + s[1..][..|s| - 2];
    }
  }

  /** Removes an item, rebuilding the heap. */
  method Discard(heap: seq<Item>, index: map<Key, Item>, x: Item, ghost items: seq<Item>)
    returns (heap': seq<Item>, index': map<Key, Item>)
    requires Represents(heap, index, items) && Distinct(items) && x in items
    ensures Represents(heap', index', Remove(items, x.fingerprint))
  {
    SameMembers(heap, items);
    forall y | y in heap && SameKey(y, x) ensures y == x { UniqueItem(items, y, x); }
    var rest := RemoveFirstEqual(heap, x);
    heap' := Heapify(rest);
    RemoveMultiset(items, x);
    assert multiset(heap') == multiset(items) - multiset{x};
    IndexRemove(items, x.fingerprint);
    index' := index - {x.fingerprint};
  }

  /** Adds an item of a new fingerprint. */
  method Store(heap: seq<Item>, index: map<Key, Item>, x: Item, ghost items: seq<Item>)
    returns (heap': seq<Item>, index': map<Key, Item>)
    requires Represents(heap, index, items) && Find(items, x.fingerprint).None?
    ensures Represents(heap', index', Insert(items, x))
  {
    heap' := HeapPush(heap, x);
    FindMember(items, x.fingerprint);
    InsertMembers(items, x);
    IndexInsert(items, x);
    index' := index[x.fingerprint := x];
  }

  /** Removes the item of a fingerprint that the dictionary holds. */
  method DiscardKey(heap: seq<Item>, index: map<Key, Item>, fp: Key, ghost items: seq<Item>)
    returns (heap': seq<Item>, index': map<Key, Item>)
    requires Represents(heap, index, items) && Distinct(items) && fp in index
    ensures Represents(heap', index', Remove(items, fp))
  {
    IndexMembers(items, fp);
    heap', index' := Discard(heap, index, index[fp], items);
  }

  /** Puts another item in the place of the one with its fingerprint. */
  method Replace(heap: seq<Item>, index: map<Key, Item>, x: Item, ghost items: seq<Item>)
    returns (heap': seq<Item>, index': map<Key, Item>)
    requires Represents(heap, index, items) && Sorted(items) && Distinct(items) && x.fingerprint in index
    ensures Represents(heap', index', Insert(Remove(items, x.fingerprint), x))
  {
    heap', index' := DiscardKey(heap, index, x.fingerprint, items);
    FindRemoved(items, x.fingerprint);
    heap', index' := Store(heap', index', x, Remove(items, x.fingerprint));
  }

  /** Removes the first item of the sequence, which is the root of the heap. */
  method TakeFirst(heap: seq<Item>, index: map<Key, Item>, ghost items: seq<Item>)
    returns (x: Item, heap': seq<Item>, index': map<Key, Item>)
    requires Represents(heap, index, items) && Sorted(items) && Distinct(items) && heap != []
    ensures items != [] && x == items[0] && Represents(heap', index', items[1..])
  {
    SameMembers(heap, items);
    forall y | y in heap ensures !Before(y, heap[0]) {
      var k :| 0 <= k < |heap| && heap[k] == y;
      RootFirst(heap, k);
    }
    FirstIsLeast(items, heap[0]);
    x, heap' := HeapPop(heap);
    assert items == [x] + items[1..];
    assert multiset(heap') == multiset(items) - multiset{x};
    IndexRemove(items, x.fingerprint);
    index' := index - {x.fingerprint};
  }

  type ValidQueue = q: Queue | QueueModel.Valid(q) ghost witness Empty(1)

  /** A second report of a pending incident refreshes its job in place. */
  method RefreshItem(heap: seq<Item>, index: map<Key, Item>, fp: Key, priority: nat, payload: Work, ghost q: ValidQueue)
    returns (heap': seq<Item>, index': map<Key, Item>, ghost q': ValidQueue)
    requires Represents(heap, index, q.pending) && fp in index
    ensures q' == q.(pending := q'.pending, counters := q.counters.(coalesced := q.counters.coalesced + 1))
    ensures Represents(heap', index', q'.pending)
    ensures q' == Coalesce(q, index[fp], priority, payload)
  {
    var existing := index[fp];
    IndexMembers(q.pending, fp);
    CoalesceValid(q, existing, priority, payload);
    q' := Coalesce(q, existing, priority, payload);
    var refreshed := Item(Min(priority, existing.priority), existing.sequence, fp, payload);
    heap', index' := Replace(heap, index, refreshed, q.pending);
  }

  /** A new job, in a queue that has room for it. */
  method AppendItem(heap: seq<Item>, index: map<Key, Item>, x: Item, ghost q: ValidQueue)
    returns (heap': seq<Item>, index': map<Key, Item>, ghost q': ValidQueue)
    requires Represents(heap, index, q.pending) && x.fingerprint !in index && x.fingerprint !in q.inFlight
    requires x.sequence == q.nextSequence && |q.pending| < q.maxPending
    ensures q' == Admit(q, x.priority, x.fingerprint, x.payload) && Represents(heap', index', q'.pending)
  {
    IndexMembers(q.pending, x.fingerprint);
    AdmitValid(q, x.priority, x.fingerprint, x.payload);
    q' := Admit(q, x.priority, x.fingerprint, x.payload);
    heap', index' := Store(heap, index, x, q.pending);
  }

  /** Gives up the pending item that comes last. */
  method EvictWorst(heap: seq<Item>, index: map<Key, Item>, worst: Item, ghost q: ValidQueue)
    returns (heap': seq<Item>, index': map<Key, Item>, ghost q': ValidQueue)
    requires Represents(heap, index, q.pending) && q.pending != [] && worst == q.pending[|q.pending| - 1]
    ensures q' == EvictLast(q) && Represents(heap', index', q'.pending)
    ensures index'.Keys <= index.Keys
  {
    EvictItems(q);
    q' := EvictLast(q);
    RemoveLast(q.pending);
    heap', index' := Discard(heap, index, worst, q.pending);
    IndexRemove(q.pending, worst.fingerprint);
  }

  method WithdrawItem(heap: seq<Item>, index: map<Key, Item>, fp: Key, ghost q: ValidQueue)
    returns (heap': seq<Item>, index': map<Key, Item>, ghost q': ValidQueue)
    requires Represents(heap, index, q.pending) && fp in index
    ensures (q', Cancelled) == QueueModel.Cancel(q, fp) && Represents(heap', index', q'.pending)
  {
    IndexMembers(q.pending, fp);
    CancelValid(q, fp);
    q' := QueueModel.Cancel(q, fp).0;
    heap', index' := DiscardKey(heap, index, fp, q.pending);
  }
}

/**
 The queue as the program keeps it: a heap, a dictionary from fingerprint to
 item and an in-flight set. Each method is proved to act on the represented
 sequence exactly as `QueueModel` says.
 */
module InvestigationQueueClass {
  import opened Domain
  import opened QueueModel
  import opened HeapQ
  import opened QueueStorage

  class InvestigationQueue {
    const maxPending: nat
    var heap: seq<Item>
    var pending: map<Key, Item>
    var inFlight: set<Key>
    var sequence: nat
    var accepting: bool
    var closing: bool
    var counters: Counters

    /** The sorted sequence that heap and dictionary represent. */
    ghost var model: ValidQueue

    ghost predicate Valid()
      reads this
    {
      && Represents(heap, pending, model.pending)
      && model == Queue(maxPending, model.pending, inFlight, sequence, accepting, counters)
    }

    constructor (maxPending: nat)
      requires 1 <= maxPending
      ensures Valid() && model == Empty(maxPending) && !closing
    {
      this.maxPending := maxPending;
      heap, pending, inFlight := [], map[], {};
      sequence, accepting, closing, counters := 0, true, false, NO_COUNTS;
      model := Empty(maxPending);
    }

    method Report(status: EnqueueStatus, evicted: Option<Key>) returns (r: EnqueueResult)
      requires Valid()
      ensures r == Result(model, status, evicted)
    {
      SameMembers(heap, model.pending);
      r := EnqueueResult(status, |heap|, |inFlight|, evicted);
    }

    method Refuse()
      requires Valid()
      modifies this`counters, this`model
      ensures Valid() && model == Reject(old(model))
    {
      counters := counters.(rejected := counters.rejected + 1);
      model := Reject(model);
    }

    /** The part of `Enqueue` for an incident that is neither pending nor in flight. */
    method Offer(fp: Key, priority: nat, payload: Work) returns (r: EnqueueResult)
      requires Valid() && accepting && fp !in inFlight && fp !in pending
      modifies this`heap, this`pending, this`sequence, this`counters, this`model
      ensures Valid()
      ensures var q := old(model);
              if |q.pending| < q.maxPending then
                model == Admit(q, priority, fp, payload) && r == Result(model, Enqueued, None)
              else
                var worst := q.pending[|q.pending| - 1];
                if priority >= worst.priority then
                  model == Reject(q) && r == Result(model, RejectedFull, None)
                else
                  && model == Admit(EvictLast(q), priority, fp, payload)
                  && r == Result(model, Enqueued, Some(worst.fingerprint))
    {
      SameMembers(heap, model.pending);
      var evicted := None;
      if |heap| >= maxPending {
        var worst := LastInOrder(heap);
        LastIsGreatest(model.pending, worst);
        if priority >= worst.priority {
          Refuse();
          r := Report(RejectedFull, None);
          return;
        }
        Evict(worst);
        evicted := Some(worst.fingerprint);
      }
      Append(fp, priority, payload);
      r := Report(Enqueued, evicted);
    }

    method Evict(worst: Item)
      requires Valid() && model.pending != [] && worst == model.pending[|model.pending| - 1]
      modifies this`heap, this`pending, this`counters, this`model
      ensures Valid() && model == EvictLast(old(model))
      ensures pending.Keys <= old(pending).Keys
    {
      counters := counters.(evicted := counters.evicted + 1);
      heap, pending, model := EvictWorst(heap, pending, worst, model);
    }

    method Append(fp: Key, priority: nat, payload: Work)
      requires Valid() && fp !in inFlight && fp !in pending && |model.pending| < maxPending
      modifies this`heap, this`pending, this`sequence, this`counters, this`model
      ensures Valid() && model == Admit(old(model), priority, fp, payload)
    {
      var heap', pending';
      ghost var model';
      heap', pending', model' := AppendItem(heap, pending, Item(priority, sequence, fp, payload), model);
      sequence := sequence + 1;
      counters := counters.(enqueued := counters.enqueued + 1);
      heap, pending, model := heap', pending', model';
    }

    method Refresh(fp: Key, priority: nat, payload: Work)
      requires Valid() && fp in pending
      modifies this`heap, this`pending, this`counters, this`model
      ensures Valid() && model == Coalesce(old(model), old(pending)[fp], priority, payload)
    {
      counters := counters.(coalesced := counters.coalesced + 1);
      heap, pending, model := RefreshItem(heap, pending, fp, priority, payload, model);
    }

    method Enqueue(fp: Key, severity: Severity, payload: Work) returns (r: EnqueueResult)
      requires Valid()
      modifies this`heap, this`pending, this`sequence, this`counters, this`model
      ensures Valid()
      ensures (model, r) == QueueModel.Enqueue(old(model), fp, severity, payload)
    {
      if !accepting {
        Refuse();
        r := Report(RejectedClosed, None);
      } else if fp in inFlight {
        r := Report(AlreadyInFlight, None);
      } else if fp in pending {
        IndexMembers(model.pending, fp);
        Refresh(fp, Priority(severity), payload);
        r := Report(Coalesced, None);
      } else {
        IndexMembers(model.pending, fp);
        r := Offer(fp, Priority(severity), payload);
      }
    }

    method Cancel(fp: Key) returns (status: CancelStatus)
      requires Valid()
      modifies this`heap, this`pending, this`counters, this`model
      ensures Valid()
      ensures (model, status) == QueueModel.Cancel(old(model), fp)
    {
      if fp in pending {
        counters := counters.(cancelled := counters.cancelled + 1);
        heap, pending, model := WithdrawItem(heap, pending, fp, model);
        return Cancelled;
      }
      IndexMembers(model.pending, fp);
      return if fp in inFlight then CancelInFlight else NotFound;
    }

    /** What a worker gets once there is work or the queue is closing. */
    method Next() returns (item: Option<Item>)
      requires Valid() && (heap != [] || closing)
      modifies this`heap, this`pending, this`inFlight, this`model
      ensures Valid()
      ensures old(model).pending == [] ==> item.None? && model == old(model)
      ensures old(model).pending != [] ==> item == Some(old(model).pending[0]) && model == Pop(old(model))
    {
      SameMembers(heap, model.pending);
      if heap == [] {
        return None;
      }
      PopValid(model);
      var first;
      first, heap, pending := TakeFirst(heap, pending, model.pending);
      inFlight := inFlight + {first.fingerprint};
      model := Pop(model);
      return Some(first);
    }

    /** The end of a job: its outcome is counted before its entry is released. */
    method Count(succeeded: bool)
      requires Valid()
      modifies this`counters, this`model
      ensures Valid() && model == CountOutcome(old(model), succeeded)
    {
      if succeeded {
        counters := counters.(completed := counters.completed + 1);
      } else {
        counters := counters.(failed := counters.failed + 1);
      }
      model := CountOutcome(model, succeeded);
    }

    method Release(fp: Key)
      requires Valid()
      modifies this`inFlight, this`model
      ensures Valid() && model == QueueModel.Release(old(model), fp)
    {
      inFlight := inFlight - {fp};
      model := QueueModel.Release(model, fp);
    }

    /** Stops accepting work and wakes the workers; jobs already pending are drained. */
    method Close()
      requires Valid()
      modifies this`accepting, this`closing, this`model
      ensures Valid() && closing && model == QueueModel.Close(old(model))
    {
      accepting, closing := false, true;
      model := QueueModel.Close(model);
    }
  }
}
