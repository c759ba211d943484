/** Streaming top-k: what a queue that is only offered work holds. */
module TopK {
  import opened Domain
  import opened QueueModel

  /** One offer, with its place in the stream. */
  datatype Request = Request(priority: nat, arrival: nat, fingerprint: Key, payload: Work)

  datatype Offer = Offer(fingerprint: Key, severity: Severity, payload: Work)

  predicate Precedes(a: Request, b: Request) {
    a.priority < b.priority || (a.priority == b.priority && a.arrival < b.arrival)
  }

  ghost predicate Ordered(s: seq<Request>) {
    forall i, j :: 0 <= i < j < |s| ==> Precedes(s[i], s[j])
  }

  /** The queue after a stream of offers. */
  function Offered(maxPending: nat, offers: seq<Offer>): (q: Queue)
    requires 1 <= maxPending
    ensures q.maxPending == maxPending
  {
    if offers == [] then
      Empty(maxPending)
    else
      var last := offers[|offers| - 1];
      Enqueue(Offered(maxPending, offers[..|offers| - 1]), last.fingerprint, last.severity, last.payload).0
  }

  function RequestAt(offers: seq<Offer>, i: nat): Request
    requires i < |offers|
  {
    Request(Priority(offers[i].severity), i, offers[i].fingerprint, offers[i].payload)
  }

  /** Everything offered, in (priority, arrival) order. */
  function Ranking(offers: seq<Offer>): seq<Request> {
    if offers == [] then
      []
    else
      Place(Ranking(offers[..|offers| - 1]), RequestAt(offers, |offers| - 1))
  }

  /** Puts `x` before the first request that it precedes. */
  function Place(s: seq<Request>, x: Request): seq<Request> {
    if s == [] || Precedes(x, s[0]) then [x] + s else [s[0]] + Place(s[1..], x)
  }

  function Truncate(s: seq<Request>, k: nat): seq<Request> {
    if |s| <= k then s else s[..k]
  }

  /** The same job, whatever sequence number the queue gave it. */
  predicate SameJob(x: Item, r: Request) {
    x.priority == r.priority && x.fingerprint == r.fingerprint && x.payload == r.payload
  }

  ghost predicate SameJobs(s: seq<Item>, r: seq<Request>) {
    |s| == |r| && forall i :: 0 <= i < |s| ==> SameJob(s[i], r[i])
  }

  ghost predicate DistinctOffers(offers: seq<Offer>) {
    forall i, j :: 0 <= i < j < |offers| ==> offers[i].fingerprint != offers[j].fingerprint
  }

  /** The ranking is the offers, each once, in strict (priority, arrival) order. */
  lemma {:induction false} RankingIsSortedPermutation(offers: seq<Offer>)
    ensures |Ranking(offers)| == |offers| && Ordered(Ranking(offers))
    ensures forall r :: r in Ranking(offers) <==> r.arrival < |offers| && r == RequestAt(offers, r.arrival)
  {
    if offers != [] {
      var n := |offers| - 1;
      var front, x := offers[..n], RequestAt(offers, n);
      RankingIsSortedPermutation(front);
      var s := Ranking(front);
      assert forall i :: 0 <= i < n ==> RequestAt(offers, i) == RequestAt(front, i);
      PlaceOrdered(s, x);
    }
  }

  lemma {:induction false} PlaceOrdered(s: seq<Request>, x: Request)
    requires Ordered(s) && forall r :: r in s ==> r.arrival < x.arrival
    ensures Ordered(Place(s, x)) && |Place(s, x)| == |s| + 1
    ensures forall r :: r in Place(s, x) <==> r == x || r in s
  {
    if s == [] || Precedes(x, s[0]) {
    } else {
      PlaceOrdered(s[1..], x);
      assert s == [s[0]] + s[1..];
      var rest := Place(s[1..], x);
      forall j | 0 <= j < |rest| ensures Precedes(s[0], rest[j]) {
        assert rest[j] in rest && s[0] in s;
      }
    }
  }

  /** Sorted insertion into the queue is placement in the ranking, when the newcomer is the latest. */
  lemma {:induction false} InsertIsPlace(s: seq<Item>, r: seq<Request>, x: Item, y: Request)
    requires SameJobs(s, r) && SameJob(x, y)
    requires forall i :: 0 <= i < |s| ==> s[i].sequence < x.sequence && r[i].arrival < y.arrival
    ensures SameJobs(Insert(s, x), Place(r, y))
  {
    if s == [] || Before(x, s[0]) {
    } else {
      InsertIsPlace(s[1..], r[1..], x, y);
    }
  }

  /** Truncating after a placement: the newcomer is dropped, or it displaces the last. */
  lemma {:induction false} PlaceTruncated(s: seq<Request>, x: Request, k: nat)
    requires Ordered(s) && 1 <= k && forall r :: r in s ==> r.arrival < x.arrival
    ensures |s| >= k && x.priority >= s[k - 1].priority ==> Truncate(Place(s, x), k) == Truncate(s, k)
    ensures |s| >= k && x.priority < s[k - 1].priority ==> Truncate(Place(s, x), k) == Place(s[..k - 1], x)
  {
    if |s| >= k {
      assert s[0] in s && s[k - 1] in s;
      if Precedes(x, s[0]) {
        assert ([x] + s)[..k] == [x] + s[..k - 1];
      } else {
        assert s[..k] == [s[0]] + s[1..][..k - 1];
        PlaceLength(s, x);
        if k > 1 {
          PlaceTruncated(s[1..], x, k - 1);
          PlaceLength(s[1..], x);
          assert ([s[0]] + Place(s[1..], x))[..k] == [s[0]] + Place(s[1..], x)[..k - 1];
          assert s[..k - 1][1..] == s[1..][..k - 2];
        }
      }
    }
  }

  lemma {:induction false} PlaceLength(s: seq<Request>, x: Request)
    ensures |Place(s, x)| == |s| + 1
  {
    if s != [] && !Precedes(x, s[0]) { PlaceLength(s[1..], x); }
  }

  /**
   With no pops and no cancellations the pending items are the `maxPending`
   smallest of everything offered, by (priority, arrival), in that order.
   */
  lemma {:induction false} PendingIsTopK(maxPending: nat, offers: seq<Offer>)
    requires 1 <= maxPending && DistinctOffers(offers)
    ensures QueueModel.Valid(Offered(maxPending, offers))
    ensures Offered(maxPending, offers).accepting && Offered(maxPending, offers).inFlight == {}
    ensures SameJobs(Offered(maxPending, offers).pending, Truncate(Ranking(offers), maxPending))
  {
    if offers != [] {
      var n := |offers| - 1;
      var front, last, y := offers[..n], offers[n], RequestAt(offers, n);
      PendingIsTopK(maxPending, front);
      var q := Offered(maxPending, front);
      EnqueueValid(q, last.fingerprint, last.severity, last.payload);
      RankingIsSortedPermutation(front);
      NewcomerIsNew(maxPending, offers);
      PlaceTruncated(Ranking(front), y, maxPending);
      OneMoreOffer(q, Ranking(front), last, y);
    }
  }

  /** One more offer, against the ranking so far. */
  lemma OneMoreOffer(q: Queue, ranking: seq<Request>, offer: Offer, y: Request)
    requires QueueModel.Valid(q) && q.accepting && q.inFlight == {} && Find(q.pending, offer.fingerprint).None?
    requires Ordered(ranking) && SameJobs(q.pending, Truncate(ranking, q.maxPending))
    requires forall r :: r in ranking ==> r.arrival < y.arrival
    requires y.priority == Priority(offer.severity) && y.fingerprint == offer.fingerprint && y.payload == offer.payload
    ensures SameJobs(Enqueue(q, offer.fingerprint, offer.severity, offer.payload).0.pending,
                     Truncate(Place(ranking, y), q.maxPending))
  {
    var k := q.maxPending;
    var x := Item(y.priority, q.nextSequence, offer.fingerprint, offer.payload);
    assert forall i :: 0 <= i < |ranking| ==> ranking[i] in ranking;
    assert forall i :: 0 <= i < |q.pending| ==> q.pending[i] in q.pending;
    PlaceLength(ranking, y);
    PlaceTruncated(ranking, y, k);
    if |q.pending| < k {
      InsertIsPlace(q.pending, ranking, x, y);
    } else {
      assert SameJob(q.pending[k - 1], ranking[k - 1]);
      if y.priority < ranking[k - 1].priority {
        InsertIsPlace(q.pending[..k - 1], ranking[..k - 1], x, y);
      }
    }
  }

  /** With distinct fingerprints no offer finds its incident pending. */
  lemma NewcomerIsNew(maxPending: nat, offers: seq<Offer>)
    requires 1 <= maxPending && offers != [] && DistinctOffers(offers)
    requires var front := offers[..|offers| - 1];
             SameJobs(Offered(maxPending, front).pending, Truncate(Ranking(front), maxPending))
    ensures Find(Offered(maxPending, offers[..|offers| - 1]).pending, offers[|offers| - 1].fingerprint).None?
  {
    var front, fp := offers[..|offers| - 1], offers[|offers| - 1].fingerprint;
    var pending := Offered(maxPending, front).pending;
    RankingIsSortedPermutation(front);
    FindMember(pending, fp);
    forall i | 0 <= i < |pending| ensures pending[i].fingerprint != fp {
      var r := Truncate(Ranking(front), maxPending)[i];
      assert r in Ranking(front);
      assert front[r.arrival] == offers[r.arrival];
    }
  }

  /** No two places of the ranking hold one incident. */
  lemma RankingDistinct(offers: seq<Offer>, a: nat, b: nat)
    requires DistinctOffers(offers) && a < b < |offers| && |Ranking(offers)| == |offers|
    ensures Ranking(offers)[a].fingerprint != Ranking(offers)[b].fingerprint
  {
    RankingIsSortedPermutation(offers);
    var ra, rb := Ranking(offers)[a], Ranking(offers)[b];
    assert ra in Ranking(offers) && rb in Ranking(offers);
    assert Precedes(ra, rb);
  }

  /** An offer is pending exactly when fewer than `maxPending` offers rank before it. */
  lemma PendingIffRankedHigh(maxPending: nat, offers: seq<Offer>, a: nat)
    requires 1 <= maxPending && DistinctOffers(offers) && a < |offers| && |Ranking(offers)| == |offers|
    ensures IsPending(Offered(maxPending, offers), Ranking(offers)[a].fingerprint) <==> a < maxPending
  {
    PendingIsTopK(maxPending, offers);
    var pending, ranking := Offered(maxPending, offers).pending, Ranking(offers);
    if a < maxPending {
      assert pending[a] in pending && SameJob(pending[a], ranking[a]);
    } else if IsPending(Offered(maxPending, offers), ranking[a].fingerprint) {
      var x :| x in pending && x.fingerprint == ranking[a].fingerprint;
      var b :| 0 <= b < |pending| && pending[b] == x;
      assert SameJob(pending[b], ranking[b]);
      RankingDistinct(offers, b, a);
      assert false;
    }
  }

  /** Every kept offer precedes every one that is not kept: it is more severe, or as severe and came earlier. */
  lemma KeptPrecedeDropped(maxPending: nat, offers: seq<Offer>, i: nat, j: nat)
    requires 1 <= maxPending && DistinctOffers(offers) && i < |offers| && j < |offers|
    requires IsPending(Offered(maxPending, offers), offers[i].fingerprint)
    requires !IsPending(Offered(maxPending, offers), offers[j].fingerprint)
    ensures Precedes(RequestAt(offers, i), RequestAt(offers, j))
    ensures || MoreSevere(offers[i].severity, offers[j].severity)
            || (!MoreSevere(offers[j].severity, offers[i].severity) && i < j)
    ensures |Offered(maxPending, offers).pending| == maxPending
  {
    PendingIsTopK(maxPending, offers);
    RankingIsSortedPermutation(offers);
    var ranking := Ranking(offers);
    assert RequestAt(offers, i) in ranking && RequestAt(offers, j) in ranking;
    var a: nat :| a < |ranking| && ranking[a] == RequestAt(offers, i);
    var b: nat :| b < |ranking| && ranking[b] == RequestAt(offers, j);
    PendingIffRankedHigh(maxPending, offers, a);
    PendingIffRankedHigh(maxPending, offers, b);
    RanksMean(offers[i].severity, offers[j].severity);
    RanksMean(offers[j].severity, offers[i].severity);
  }
}
