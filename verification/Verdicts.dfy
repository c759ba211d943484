/** What a grounded result says in detail: which citations, bullets, records and reasons, and in which order. */
module Verdicts {
  import opened Domain
  import opened EvidenceModel
  import opened Grounding

  ghost predicate Rising(places: seq<nat>) {
    forall i, j :: 0 <= i < j < |places| ==> places[i] < places[j]
  }

  ghost predicate Lists(places: seq<nat>, good: set<nat>) {
    Rising(places) && forall k :: k in places <==> k in good
  }

  /** The first three of the good places, in order. */
  ghost predicate FirstOf(places: seq<nat>, good: set<nat>) {
    && Rising(places) && |places| <= 3
    && (forall k :: k in places ==> k in good)
    && (forall k :: k in good ==> k in places || (|places| == 3 && places[2] < k))
  }

  ghost predicate At<T>(r: seq<T>, places: seq<nat>, s: seq<T>) {
    |r| == |places| && forall i :: 0 <= i < |r| ==> places[i] < |s| && r[i] == s[places[i]]
  }

  lemma FirstThreeOf<T>(r: seq<T>, places: seq<nat>, s: seq<T>, good: set<nat>) returns (first: seq<nat>)
    requires Lists(places, good) && At(r, places, s)
    ensures FirstOf(first, good) && At(FirstThree(r), first, s)
  {
    first := FirstThree(places);
    forall k | k in good ensures k in first || (|first| == 3 && first[2] < k) {
      var i :| 0 <= i < |places| && places[i] == k;
    }
    assert forall k :: k in first ==> k in places;
  }

  /** One more element, which is good or not. */
  lemma OneMore<T>(r: seq<T>, places: seq<nat>, front: seq<T>, last: T, good: set<nat>)
    requires Lists(places, good) && At(r, places, front) && forall k :: k in good ==> k < |front|
    ensures Lists(places + [|front|], good + {|front|}) && At(r + [last], places + [|front|], front + [last])
    ensures At(r, places, front + [last])
  {
    forall i | 0 <= i < |places| ensures places[i] < |front| {
      assert places[i] in places;
    }
  }

  // A confirmed result

  ghost function CitingBullets(bullets: seq<Bullet>, support: set<Id>): set<nat> {
    set k: nat | k < |bullets| && bullets[k].Cites() * support != {}
  }

  lemma {:induction false} GroundedBulletsAt(bullets: seq<Bullet>, support: set<Id>) returns (places: seq<nat>)
    ensures Lists(places, CitingBullets(bullets, support)) && At(GroundedBullets(bullets, support), places, bullets)
  {
    places := [];
    if bullets != [] {
      var front, last := bullets[..|bullets| - 1], bullets[|bullets| - 1];
      places := GroundedBulletsAt(front, support);
      OneMore(GroundedBullets(front, support), places, front, last, CitingBullets(front, support));
      assert bullets == front + [last];
      if last.Cites() * support != {} {
        assert CitingBullets(bullets, support) == CitingBullets(front, support) + {|front|};
        places := places + [|front|];
      } else {
        assert CitingBullets(bullets, support) == CitingBullets(front, support);
      }
    }
  }

  /** Its bullets are the first three of the proposed ones that cite a backing record. */
  lemma ConfirmedBullets(a: Analysis, records: seq<Record>, o: Options, now: real) returns (places: seq<nat>)
    requires Numbered(records) && Grounded(a, records, o, now).confirmed
    ensures FirstOf(places, CitingBullets(a.keyEvidence, Backing(a, records)))
    ensures At(Grounded(a, records, o, now).keyEvidence, places, a.keyEvidence)
  {
    SupportIsBacking(a, records);
    var support := Backing(a, records);
    var all := GroundedBulletsAt(a.keyEvidence, support);
    places := FirstThreeOf(GroundedBullets(a.keyEvidence, support), all, a.keyEvidence,
                           CitingBullets(a.keyEvidence, support));
  }

  /** Where x is cited first, y has not been cited yet. */
  ghost predicate CitedBefore(cited: seq<Id>, x: Id, y: Id) {
    exists p :: 0 <= p < |cited| && cited[p] == x && y !in cited[..p + 1]
  }

  lemma {:induction false} SupportingInOrder(cited: seq<Id>, allowed: set<Id>, i: nat, j: nat)
    requires i < j < |Supporting(cited, allowed)|
    ensures CitedBefore(cited, Supporting(cited, allowed)[i], Supporting(cited, allowed)[j])
  {
    var front, last := cited[..|cited| - 1], cited[|cited| - 1];
    var s, all := Supporting(front, allowed), Supporting(cited, allowed);
    SupportingMeans(front, allowed);
    if j < |s| {
      SupportingInOrder(front, allowed, i, j);
      var p :| 0 <= p < |front| && front[p] == s[i] && s[j] !in front[..p + 1];
      assert cited[p] == all[i] && cited[..p + 1] == front[..p + 1];
    } else {
      assert s[i] in s;
      var p :| 0 <= p < |front| && front[p] == s[i];
      assert cited[p] == all[i] && cited[..p + 1] == front[..p + 1];
      assert forall x :: x in front[..p + 1] ==> x in front;
    }
  }

  /** Its support is listed in the order in which the analysis first cites it. */
  lemma ConfirmedSupportInOrder(a: Analysis, records: seq<Record>, o: Options, now: real, i: nat, j: nat)
    requires Grounded(a, records, o, now).confirmed && i < j < |Grounded(a, records, o, now).supporting|
    ensures var s := Grounded(a, records, o, now).supporting; CitedBefore(a.supporting, s[i], s[j])
  {
    SupportingInOrder(a.supporting, Ids(records), i, j);
  }

  // A downgraded result

  ghost function Failing(records: seq<Record>): set<nat> {
    set k: nat | k < |records| && records[k].status != Ok
  }

  /** What a downgraded result quotes from: the failing records, if there are any. */
  ghost function Quotable(records: seq<Record>): set<nat> {
    set k: nat | k < |records| && (records[k].status != Ok || Failing(records) == {})
  }

  lemma {:induction false} NotOkAt(records: seq<Record>) returns (places: seq<nat>)
    ensures Lists(places, Failing(records)) && At(NotOk(records), places, records)
  {
    places := [];
    if records != [] {
      var front, last := records[..|records| - 1], records[|records| - 1];
      places := NotOkAt(front);
      OneMore(NotOk(front), places, front, last, Failing(front));
      assert records == front + [last];
      if last.status.Ok? {
        assert Failing(records) == Failing(front);
      } else {
        assert Failing(records) == Failing(front) + {|front|};
        places := places + [|front|];
      }
    }
  }

  lemma AllAt(records: seq<Record>) returns (places: seq<nat>)
    requires Failing(records) == {}
    ensures Lists(places, Quotable(records)) && At(records, places, records)
  {
    places := seq(|records|, (k: nat) requires k < |records| => k);
    forall k | k in Quotable(records) ensures k in places {
      assert places[k] == k;
    }
  }

  lemma FallbackAt(records: seq<Record>) returns (places: seq<nat>)
    ensures FirstOf(places, Quotable(records)) && At(Fallback(records), places, records)
  {
    var failing := NotOkAt(records);
    if NotOk(records) == [] {
      assert failing == [] && Failing(records) == {};
      var all := AllAt(records);
      places := FirstThreeOf(records, all, records, Quotable(records));
    } else {
      assert failing[0] in failing;
      assert Quotable(records) == Failing(records);
      places := FirstThreeOf(NotOk(records), failing, records, Failing(records));
    }
  }

  /**
   It supports itself on the first three failing records, or on the first three
   records if none fails, quotes each of them, and claims nothing else.
   */
  lemma DowngradedQuotes(a: Analysis, records: seq<Record>, o: Options, now: real) returns (places: seq<nat>)
    requires Numbered(records) && !Grounded(a, records, o, now).confirmed
    ensures FirstOf(places, Quotable(records)) && forall i :: 0 <= i < |places| ==> places[i] < |records|
    ensures var r := Grounded(a, records, o, now);
            && |r.supporting| == |r.keyEvidence| == |places|
            && (forall i :: 0 <= i < |places| ==>
                  && r.supporting[i] == E(places[i] + 1)
                  && r.keyEvidence[i] == Quoted(E(places[i] + 1), records[places[i]].summary,
                                                records[places[i]].mentions))
            && r.component == "unknown"
            && r.confidence == if a.confidence < 0.3 then a.confidence else 0.3
  {
    places := FallbackAt(records);
  }

  // Its reasons

  function Kind(r: Reason): nat {
    match r
    case FailedRecord(_, _, _) => 0
    case StaleSupport(_) => 1
    case Contradicted(_) => 2
    case TooFew => 3
  }

  ghost function ReasonsOf(a: Analysis, records: seq<Record>, o: Options, now: real): seq<Reason> {
    Reasons(Supporting(a.supporting, Ids(records)), records, o, now)
  }

  /** A downgraded result carries these reasons. */
  lemma ReasonsAreGiven(a: Analysis, records: seq<Record>, o: Options, now: real)
    requires !Grounded(a, records, o, now).confirmed
    ensures Grounded(a, records, o, now).cause == Inconclusive(ReasonsOf(a, records, o, now))
  {
  }

  /** The first three failing records come first, then whatever else is wrong, each named once. */
  lemma FailedReasons(a: Analysis, records: seq<Record>, o: Options, now: real) returns (places: seq<nat>)
    requires Numbered(records)
    ensures FirstOf(places, Failing(records)) && forall i :: 0 <= i < |places| ==> places[i] < |records|
    ensures var reasons := ReasonsOf(a, records, o, now);
            && |places| <= |reasons|
            && (forall i :: 0 <= i < |places| ==>
                  reasons[i] == FailedRecord(E(places[i] + 1), records[places[i]].summary, records[places[i]].mentions))
            && (forall i :: |places| <= i < |reasons| ==> Kind(reasons[i]) > 0)
            && (forall i, j :: |places| <= i < j < |reasons| ==> Kind(reasons[i]) < Kind(reasons[j]))
  {
    var all := NotOkAt(records);
    places := FirstThreeOf(NotOk(records), all, records, Failing(records));
  }

  /** Too few records are named as a reason exactly if the analysis names fewer than it must. */
  lemma TooFewMeans(a: Analysis, records: seq<Record>, o: Options, now: real)
    ensures TooFew in ReasonsOf(a, records, o, now) <==> |Backing(a, records)| < 1 || |Backing(a, records)| < o.minimum
  {
    SupportIsBacking(a, records);
  }

  /** Stale support is: records cited as support that are from the future, or older than the limit. */
  lemma StaleReasonMeans(a: Analysis, records: seq<Record>, o: Options, now: real, ids: seq<Id>)
    requires Numbered(records) && StaleSupport(ids) in ReasonsOf(a, records, o, now)
    ensures ids != []
    ensures forall x :: x in ids <==>
              exists r :: && r in records && r.id == x && x in a.supporting
                          && (r.observedAt > now || now - r.observedAt > o.maxAge)
  {
    var support := Supporting(a.supporting, Ids(records));
    StaleMeans(support, records, o, now);
    SupportingMeans(a.supporting, Ids(records));
    forall x | x in ids
      ensures exists r :: && r in records && r.id == x && x in a.supporting
                          && (r.observedAt > now || now - r.observedAt > o.maxAge)
    {
      LookupNumbered(records, x);
    }
    forall r | r in records && r.id in a.supporting && (r.observedAt > now || now - r.observedAt > o.maxAge)
      ensures r.id in ids
    {
      RecordIsFound(records, r);
    }
  }

  /** It is named exactly if there is any. */
  lemma StaleReasonGiven(a: Analysis, records: seq<Record>, o: Options, now: real)
    requires Numbered(records)
    ensures (exists ids :: StaleSupport(ids) in ReasonsOf(a, records, o, now)) <==>
            !AllFresh(a.supporting, records, o, now)
  {
    FreshMeans(a, records, o, now);
    var stale := StaleAmong(Supporting(a.supporting, Ids(records)), records, o, now);
    if stale != [] { assert StaleSupport(stale) in ReasonsOf(a, records, o, now); }
  }

  /** Contradicted support is named exactly if there is any, and all of it. */
  lemma ContradictedReasonMeans(a: Analysis, records: seq<Record>, o: Options, now: real, ids: set<Id>)
    ensures Contradicted(ids) in ReasonsOf(a, records, o, now) <==>
            && ids != {}
            && forall x :: x in ids <==> x in Backing(a, records) && exists r :: r in records && x in r.contradicts
  {
    var support := Supporting(a.supporting, Ids(records));
    SupportIsBacking(a, records);
    var found := ContradictedAmong(support, records);
    forall x ensures x in found <==> x in Backing(a, records) && exists r :: r in records && x in r.contradicts {
      assert x in support <==> x in Members(support);
    }
    if ids != {} && forall x :: x in ids <==> x in found {
      assert ids == found;
      assert Contradicted(found) in ReasonsOf(a, records, o, now);
    }
  }
}
