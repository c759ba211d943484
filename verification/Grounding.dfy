/** What the grounding gate guarantees, and how its verdict moves as evidence arrives. */
module Grounding {
  import opened Domain
  import opened EvidenceModel

  // The parts of the gate

  lemma {:induction false} SupportingMeans(cited: seq<Id>, allowed: set<Id>)
    ensures var s := Supporting(cited, allowed);
            && (forall x :: x in s <==> x in cited && x in allowed)
            && (forall i, j :: 0 <= i < j < |s| ==> s[i] != s[j])
  {
    if cited != [] {
      var front := cited[..|cited| - 1];
      SupportingMeans(front, allowed);
      assert cited == front + [cited[|cited| - 1]];
    }
  }

  /** Identities the analysis does not cite make no difference to its support. */
  lemma {:induction false} SupportingSame(cited: seq<Id>, allowed: set<Id>, more: set<Id>)
    requires forall x :: x in cited ==> (x in allowed <==> x in more)
    ensures Supporting(cited, allowed) == Supporting(cited, more)
  {
    if cited != [] {
      var front := cited[..|cited| - 1];
      assert cited[|cited| - 1] in cited && forall x :: x in front ==> x in cited;
      SupportingSame(front, allowed, more);
    }
  }

  /** Support that is listed once and exists is kept as it is. */
  lemma {:induction false} SupportingKeeps(s: seq<Id>, allowed: set<Id>)
    requires (forall x :: x in s ==> x in allowed) && forall i, j :: 0 <= i < j < |s| ==> s[i] != s[j]
    ensures Supporting(s, allowed) == s
  {
    if s != [] {
      var front := s[..|s| - 1];
      assert s[|s| - 1] in s && forall x :: x in front ==> x in s;
      assert s[|s| - 1] !in front;
      SupportingKeeps(front, allowed);
      assert s == front + [s[|s| - 1]];
    }
  }

  lemma {:induction false} BulletsMean(bullets: seq<Bullet>, support: set<Id>)
    ensures forall b :: b in GroundedBullets(bullets, support) <==> b in bullets && b.Cites() * support != {}
  {
    if bullets != [] {
      var front := bullets[..|bullets| - 1];
      BulletsMean(front, support);
      assert bullets == front + [bullets[|bullets| - 1]];
    }
  }

  lemma {:induction false} BulletsKept(bullets: seq<Bullet>, support: set<Id>)
    requires forall b :: b in bullets ==> b.Cites() * support != {}
    ensures GroundedBullets(bullets, support) == bullets
  {
    if bullets != [] {
      var front := bullets[..|bullets| - 1];
      assert bullets[|bullets| - 1] in bullets && forall b :: b in front ==> b in bullets;
      BulletsKept(front, support);
      assert bullets == front + [bullets[|bullets| - 1]];
    }
  }

  lemma {:induction false} LookupAt(records: seq<Record>, first: nat, id: Id)
    requires forall k :: 0 <= k < |records| ==> records[k].id == E(first + k)
    ensures Lookup(records, id)
         == if id.E? && first <= id.number < first + |records| then Some(records[id.number - first]) else None
  {
    if records != [] { LookupAt(records[1..], first + 1, id); }
  }

  /** A ledger finds exactly its own identities, and finds them where they were added. */
  lemma LookupNumbered(records: seq<Record>, id: Id)
    requires Numbered(records)
    ensures Lookup(records, id)
         == if id.E? && 1 <= id.number <= |records| then Some(records[id.number - 1]) else None
    ensures id in Ids(records) <==> Lookup(records, id).Some?
    ensures Lookup(records, id).Some? ==> Lookup(records, id).value.id == id && Lookup(records, id).value in records
  {
    LookupAt(records, 1, id);
    if id.E? && 1 <= id.number <= |records| { assert records[id.number - 1] in records; }
  }

  lemma {:induction false} StaleMeans(support: seq<Id>, records: seq<Record>, o: Options, now: real)
    requires Numbered(records)
    ensures forall x :: x in StaleAmong(support, records, o, now)
                   <==> x in support && Lookup(records, x).Some? && TooOld(Lookup(records, x).value, o, now)
  {
    if support != [] {
      var front, last := support[..|support| - 1], support[|support| - 1];
      StaleMeans(front, records, o, now);
      LookupNumbered(records, last);
      assert support == front + [last];
    }
  }

  lemma RecordIsFound(records: seq<Record>, r: Record)
    requires Numbered(records) && r in records
    ensures Lookup(records, r.id) == Some(r) && r.id in Ids(records)
  {
    var k :| 0 <= k < |records| && records[k] == r;
    LookupNumbered(records, r.id);
  }

  // What a verdict means

  ghost function Cited(a: Analysis, ids: set<Id>): set<Id> {
    set x | x in a.supporting && x in ids
  }

  /** The records of the ledger that the analysis names as its support. */
  ghost function Backing(a: Analysis, records: seq<Record>): set<Id> {
    Cited(a, Ids(records))
  }

  /**
   With exactly these identities to cite, the analysis names enough of them as its
   support, its cause cites some of that support and nothing else of them, and some
   bullet cites it.
   */
  ghost predicate RestsOn(a: Analysis, ids: set<Id>, o: Options) {
    && a.confirmed
    && |Cited(a, ids)| >= 1 && |Cited(a, ids)| >= o.minimum
    && (exists x :: x in References(a.cause) && x in Cited(a, ids))
    && (forall x :: x in References(a.cause) && x in ids ==> x in a.supporting)
    && (exists b :: b in a.keyEvidence && b.Cites() * Cited(a, ids) != {})
  }

  /**
   The analysis rests on records of the ledger, and each of them is fresh, usable
   and contradicted by no record of the ledger.
   */
  ghost predicate Justified(a: Analysis, records: seq<Record>, o: Options, now: real) {
    && RestsOn(a, Ids(records), o)
    && AllFresh(a.supporting, records, o, now)
    && (o.allowFailed || AllOk(a.supporting, records))
    && !Contradicts(records, Backing(a, records))
  }

  ghost predicate AllFresh(ids: seq<Id>, records: seq<Record>, o: Options, now: real) {
    forall r :: r in records && r.id in ids ==> 0.0 <= now - r.observedAt <= o.maxAge
  }

  ghost predicate AllOk(ids: seq<Id>, records: seq<Record>) {
    forall r :: r in records && r.id in ids ==> r.status.Ok?
  }

  ghost predicate Contradicts(records: seq<Record>, ids: set<Id>) {
    exists r, x :: r in records && x in r.contradicts && x in ids
  }

  lemma {:induction false} DistinctCount(s: seq<Id>)
    requires forall i, j :: 0 <= i < j < |s| ==> s[i] != s[j]
    ensures |Members(s)| == |s|
  {
    if s == [] {
      assert Members(s) == {};
    } else {
      var front, last := s[..|s| - 1], s[|s| - 1];
      DistinctCount(front);
      assert s == front + [last];
      assert Members(s) == Members(front) + {last};
      assert last !in Members(front);
    }
  }

  lemma FreshMeans(a: Analysis, records: seq<Record>, o: Options, now: real)
    requires Numbered(records)
    ensures StaleAmong(Supporting(a.supporting, Ids(records)), records, o, now) == []
       <==> AllFresh(a.supporting, records, o, now)
  {
    var support := Supporting(a.supporting, Ids(records));
    var stale := StaleAmong(support, records, o, now);
    SupportingMeans(a.supporting, Ids(records));
    StaleMeans(support, records, o, now);
    if stale != [] {
      var x := stale[0];
      assert x in stale;
      LookupNumbered(records, x);
      assert TooOld(Lookup(records, x).value, o, now) && Lookup(records, x).value.id in a.supporting;
    }
    forall r | stale == [] && r in records && r.id in a.supporting ensures !TooOld(r, o, now) {
      RecordIsFound(records, r);
      assert r.id !in stale;
    }
  }

  lemma UsableMeans(a: Analysis, records: seq<Record>)
    requires Numbered(records)
    ensures Usable(Supporting(a.supporting, Ids(records)), records) <==> AllOk(a.supporting, records)
  {
    var support := Supporting(a.supporting, Ids(records));
    SupportingMeans(a.supporting, Ids(records));
    forall x | x in support
      ensures Lookup(records, x).Some? && Lookup(records, x).value in records && Lookup(records, x).value.id == x
    {
      LookupNumbered(records, x);
    }
    forall r | r in records ensures Lookup(records, r.id) == Some(r) && r.id in Ids(records) {
      RecordIsFound(records, r);
    }
  }

  lemma UncontradictedMeans(support: seq<Id>, records: seq<Record>)
    ensures ContradictedAmong(support, records) == {} <==> !Contradicts(records, Members(support))
  {
    if r, x :| r in records && x in r.contradicts && x in Members(support) {
      assert x in ContradictedAmong(support, records);
    }
    if y :| y in ContradictedAmong(support, records) {
      var r :| r in records && y in r.contradicts;
      assert y in Members(support);
    }
  }

  lemma SupportIsBacking(a: Analysis, records: seq<Record>)
    ensures Members(Supporting(a.supporting, Ids(records))) == Backing(a, records)
    ensures |Supporting(a.supporting, Ids(records))| == |Backing(a, records)|
  {
    SupportingMeans(a.supporting, Ids(records));
    DistinctCount(Supporting(a.supporting, Ids(records)));
  }

  lemma BulletsExist(bullets: seq<Bullet>, support: set<Id>)
    ensures GroundedBullets(bullets, support) != [] <==> exists b :: b in bullets && b.Cites() * support != {}
  {
    BulletsMean(bullets, support);
    if GroundedBullets(bullets, support) != [] {
      assert GroundedBullets(bullets, support)[0] in GroundedBullets(bullets, support);
    }
  }

  lemma CauseMeans(a: Analysis, records: seq<Record>)
    ensures var refs := References(a.cause) * Ids(records);
            && (refs * Backing(a, records) != {} <==> exists x :: x in References(a.cause) && x in Backing(a, records))
            && (refs <= Backing(a, records) <==>
                 forall x :: x in References(a.cause) && x in Ids(records) ==> x in a.supporting)
  {
    if x :| x in References(a.cause) && x in Backing(a, records) {
      assert x in References(a.cause) * Ids(records) * Backing(a, records);
    }
    var refs := References(a.cause) * Ids(records);
    forall x | refs <= Backing(a, records) && x in References(a.cause) && x in Ids(records) ensures x in a.supporting {
      assert x in refs;
    }
  }

  /** The gate confirms an analysis exactly when it is justified by the ledger. */
  lemma ConfirmedExactlyWhenJustified(a: Analysis, records: seq<Record>, o: Options, now: real)
    requires Numbered(records)
    ensures Grounded(a, records, o, now).confirmed <==> Justified(a, records, o, now)
  {
    SupportIsBacking(a, records);
    CauseMeans(a, records);
    BulletsExist(a.keyEvidence, Backing(a, records));
    FreshMeans(a, records, o, now);
    UsableMeans(a, records);
    UncontradictedMeans(Supporting(a.supporting, Ids(records)), records);
  }

  /** A confirmed result keeps the support once each, at most three bullets that cite it, and all else as proposed. */
  lemma ConfirmedKeepsWhatIsBacked(a: Analysis, records: seq<Record>, o: Options, now: real)
    requires Numbered(records) && Grounded(a, records, o, now).confirmed
    ensures var r := Grounded(a, records, o, now);
            && r == a.(supporting := r.supporting, keyEvidence := r.keyEvidence)
            && (forall x :: x in r.supporting <==> x in Backing(a, records))
            && |r.supporting| == |Backing(a, records)|
            && 0 < |r.keyEvidence| <= 3
            && (forall b :: b in r.keyEvidence ==> b in a.keyEvidence && b.Cites() * Backing(a, records) != {})
  {
    SupportIsBacking(a, records);
    SupportingMeans(a.supporting, Ids(records));
    var bullets := GroundedBullets(a.keyEvidence, Backing(a, records));
    BulletsMean(a.keyEvidence, Backing(a, records));
    assert forall b :: b in FirstThree(bullets) ==> b in bullets;
  }

  /** A downgraded analysis claims nothing: it quotes at most three records of the ledger and its confidence is low. */
  lemma DowngradedClaimsNothing(a: Analysis, records: seq<Record>, o: Options, now: real)
    requires Numbered(records) && !Grounded(a, records, o, now).confirmed
    ensures var r := Grounded(a, records, o, now);
            && r.cause.Inconclusive? && r.confidence <= 0.3 && r.confidence <= a.confidence
            && |r.supporting| == |r.keyEvidence| == (if |Fallback(records)| < 3 then |Fallback(records)| else 3)
            && (forall x :: x in r.supporting ==> x in Ids(records))
            && (records != [] ==> r.supporting != [])
  {
    NotOkAreRecords(records);
    var r := Grounded(a, records, o, now);
    forall x | x in r.supporting ensures x in Ids(records) {
      var k :| 0 <= k < |r.supporting| && r.supporting[k] == x;
      assert Fallback(records)[k] in Fallback(records);
    }
  }

  lemma {:induction false} NotOkAreRecords(records: seq<Record>)
    ensures forall r :: r in NotOk(records) <==> r in records && !r.status.Ok?
  {
    if records != [] {
      NotOkAreRecords(records[..|records| - 1]);
      assert records == records[..|records| - 1] + [records[|records| - 1]];
    }
  }

  /** Grounding a confirmed result again changes nothing. */
  lemma GroundingIsIdempotent(a: Analysis, records: seq<Record>, o: Options, now: real)
    requires Numbered(records) && Grounded(a, records, o, now).confirmed
    ensures Grounded(Grounded(a, records, o, now), records, o, now) == Grounded(a, records, o, now)
  {
    var r := Grounded(a, records, o, now);
    var support := Supporting(a.supporting, Ids(records));
    SupportingMeans(a.supporting, Ids(records));
    SupportingKeeps(support, Ids(records));
    BulletsMean(a.keyEvidence, Members(support));
    assert forall b :: b in r.keyEvidence ==> b in GroundedBullets(a.keyEvidence, Members(support));
    BulletsKept(r.keyEvidence, Members(support));
  }

  // How the verdict moves as evidence arrives

  /** Every identity the analysis cites, in its support or its cause, is in the ledger already. */
  ghost predicate CitesOnlyKnown(a: Analysis, records: seq<Record>) {
    (forall x :: x in a.supporting ==> x in Ids(records)) && References(a.cause) <= Ids(records)
  }

  lemma {:induction false} StaleSame(support: seq<Id>, records: seq<Record>, more: seq<Record>, o: Options, now: real)
    requires Numbered(records) && Numbered(records + more)
    requires forall x :: x in support ==> x in Ids(records)
    ensures StaleAmong(support, records, o, now) == StaleAmong(support, records + more, o, now)
  {
    if support != [] {
      var last := support[|support| - 1];
      assert last in support && forall x :: x in support[..|support| - 1] ==> x in support;
      StaleSame(support[..|support| - 1], records, more, o, now);
      LookupNumbered(records, last);
      LookupNumbered(records + more, last);
    }
  }

  lemma UsableSame(support: seq<Id>, records: seq<Record>, more: seq<Record>)
    requires Numbered(records) && Numbered(records + more)
    requires forall x :: x in support ==> x in Ids(records)
    ensures Usable(support, records) <==> Usable(support, records + more)
  {
    forall x | x in support ensures Lookup(records, x) == Lookup(records + more, x) {
      LookupNumbered(records, x);
      LookupNumbered(records + more, x);
    }
  }

  lemma ContradictedSplit(support: seq<Id>, records: seq<Record>, more: seq<Record>)
    ensures ContradictedAmong(support, records + more)
         == ContradictedAmong(support, records) + ContradictedAmong(support, more)
  {
  }

  /**
   For an analysis that cites only what is in the ledger, new evidence can take a
   confirmation away but never give one, and takes it away exactly when a new
   record contradicts something the analysis cites as support.
   */
  lemma {:induction false} NewEvidenceNeverConfirms(
    a: Analysis, records: seq<Record>, more: seq<Record>, o: Options, now: real)
    requires Numbered(records) && Numbered(records + more) && CitesOnlyKnown(a, records)
    ensures Grounded(a, records + more, o, now).confirmed
       <==> Grounded(a, records, o, now).confirmed && !Contradicts(more, Members(a.supporting))
  {
    var all := records + more;
    assert Ids(records) <= Ids(all);
    var support := Supporting(a.supporting, Ids(records));
    SupportingSame(a.supporting, Ids(records), Ids(all));
    SupportingMeans(a.supporting, Ids(records));
    assert References(a.cause) * Ids(records) == References(a.cause) * Ids(all);
    StaleSame(support, records, more, o, now);
    UsableSame(support, records, more);
    ContradictedSplit(support, records, more);
    UncontradictedMeans(support, more);
    assert Members(support) == Members(a.supporting);
  }

  lemma NothingJustifiedByNothing(a: Analysis, o: Options, now: real)
    ensures !Justified(a, [], o, now)
  {
    assert Backing(a, []) == {};
  }

  /** The least that is justified: one fresh record, cited by the cause and by one bullet. */
  lemma JustifiedByOne(a: Analysis, record: Record, text: string, o: Options, now: real)
    requires record == Record(E(1), "", "", "", Ok, "", {}, "", now, []) && o == Options(false, 300.0, 1)
    requires a == Analysis(true, "", Proposed(text, {E(1)}), [E(1)], [Stated(text, {E(1)})], 1.0)
    ensures Justified(a, [record], o, now)
  {
    assert record in [record] && a.keyEvidence[0] in a.keyEvidence;
    assert Backing(a, [record]) == {E(1)};
    assert E(1) in References(a.cause) && E(1) in a.keyEvidence[0].Cites() * Backing(a, [record]);
  }

  /** The hypothesis is needed: an analysis that cites a record not collected yet is confirmed by its arrival. */
  lemma EarlyCitationIsConfirmedLater(now: real, text: string)
    returns (a: Analysis, record: Record, o: Options)
    ensures Numbered([record]) && !CitesOnlyKnown(a, [])
    ensures !Grounded(a, [], o, now).confirmed && Grounded(a, [record], o, now).confirmed
  {
    o := Options(false, 300.0, 1);
    record := Record(E(1), "", "", "", Ok, "", {}, "", now, []);
    a := Analysis(true, "", Proposed(text, {E(1)}), [E(1)], [Stated(text, {E(1)})], 1.0);
    NothingJustifiedByNothing(a, o, now);
    ConfirmedExactlyWhenJustified(a, [], o, now);
    JustifiedByOne(a, record, text, o, now);
    ConfirmedExactlyWhenJustified(a, [record], o, now);
    assert E(1) in a.supporting;
  }

  // Which analyses evidence to come can confirm

  /** The identities of a ledger with n records. */
  ghost function Upto(n: nat): set<Id> {
    set k: nat | 1 <= k <= n :: E(k)
  }

  /**
   A ledger that grows to n records gives the analysis enough to rest on, and the
   records that exist already do not stand in its way. Apart from the present length
   only lengths that end in a cited record matter, so there are finitely many to try.
   */
  ghost predicate Sustained(a: Analysis, records: seq<Record>, o: Options, now: real, n: nat) {
    && (n == |records| || (|records| < n && E(n) in a.supporting))
    && RestsOn(a, Upto(n), o)
    && 0.0 <= o.maxAge
    && AllFresh(a.supporting, records, o, now)
    && (o.allowFailed || AllOk(a.supporting, records))
    && !Contradicts(records, Cited(a, Upto(n)))
  }

  lemma IdsUpto(records: seq<Record>)
    requires Numbered(records)
    ensures Ids(records) == Upto(|records|)
  {
    forall k: nat | 1 <= k <= |records| ensures E(k) in Ids(records) {
      assert records[k - 1] in records;
    }
  }

  /** The records that would help most: usable, observed now, contradicting nothing. */
  ghost function Helpful(m: nat, n: nat, now: real): seq<Record>
    requires m <= n
  {
    seq(n - m, (k: nat) requires k < n - m => Record(E(m + k + 1), "", "", "", Ok, "", {}, "", now, []))
  }

  /** A length that ends in a record the analysis does not cite can be given up. */
  lemma {:induction false} Shortest(a: Analysis, m: nat, n: nat, o: Options) returns (least: nat)
    requires m <= n && RestsOn(a, Upto(n), o)
    ensures least == m || (m < least && E(least) in a.supporting)
    ensures RestsOn(a, Upto(least), o) && Cited(a, Upto(least)) == Cited(a, Upto(n))
  {
    if n == m || E(n) in a.supporting {
      least := n;
    } else {
      assert Cited(a, Upto(n - 1)) == Cited(a, Upto(n));
      assert Upto(n - 1) <= Upto(n);
      least := Shortest(a, m, n - 1, o);
    }
  }

  /** Under a negative age limit nothing is fresh, so nothing is justified. */
  lemma NothingFreshBelowZero(a: Analysis, records: seq<Record>, o: Options, now: real)
    requires Justified(a, records, o, now)
    ensures 0.0 <= o.maxAge
  {
    var x :| x in References(a.cause) && x in Backing(a, records);
    var r :| r in records && r.id == x;
    assert !TooOld(r, o, now);
  }

  lemma JustifiedIsSustained(a: Analysis, records: seq<Record>, more: seq<Record>, o: Options, now: real)
    returns (n: nat)
    requires Numbered(records + more) && Justified(a, records + more, o, now)
    ensures Sustained(a, records, o, now, n)
  {
    var all := records + more;
    IdsUpto(all);
    NothingFreshBelowZero(a, all, o, now);
    assert forall r :: r in records ==> r in all;
    n := Shortest(a, |records|, |all|, o);
  }

  lemma SustainedIsJustified(a: Analysis, records: seq<Record>, o: Options, now: real, n: nat)
    requires Numbered(records) && Sustained(a, records, o, now, n)
    ensures Numbered(records + Helpful(|records|, n, now))
    ensures Justified(a, records + Helpful(|records|, n, now), o, now)
  {
    var more := Helpful(|records|, n, now);
    IdsUpto(records + more);
    assert forall r :: r in records + more ==> r in records || r in more;
    assert forall r :: r in more ==> r.status.Ok? && r.observedAt == now && r.contradicts == [];
  }

  /**
   For every analysis: there are records to come with which the gate confirms it
   exactly if it is sustained by some length of the ledger.
   */
  lemma ConfirmableExactlyWhenSustained(a: Analysis, records: seq<Record>, o: Options, now: real)
    requires Numbered(records)
    ensures (exists more :: Numbered(records + more) && Grounded(a, records + more, o, now).confirmed)
       <==> (exists n: nat :: Sustained(a, records, o, now, n))
  {
    if more :| Numbered(records + more) && Grounded(a, records + more, o, now).confirmed {
      ConfirmedExactlyWhenJustified(a, records + more, o, now);
      var n := JustifiedIsSustained(a, records, more, o, now);
    }
    if n: nat :| Sustained(a, records, o, now, n) {
      SustainedIsJustified(a, records, o, now, n);
      ConfirmedExactlyWhenJustified(a, records + Helpful(|records|, n, now), o, now);
    }
  }
}
