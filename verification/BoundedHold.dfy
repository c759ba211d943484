/** Runs of the correlation window: who is held, since when and for how long. */
module BoundedHold {
  import opened Domain
  import opened Correlation
  import opened WindowModel

  /** What the window remembers after a run that began with nothing remembered. */
  ghost function FirstSeen(c: Config, cycles: seq<Cycle>): map<Key, real> {
    if cycles == [] then
      map[]
    else
      FirstSeenAfter(c, FirstSeen(c, cycles[..|cycles| - 1]), cycles[|cycles| - 1])
  }

  /** Whether cycle n of the run holds the anomaly back. */
  ghost predicate HeldIn(c: Config, cycles: seq<Cycle>, n: nat, a: Anomaly)
    requires n < |cycles|
  {
    Held(c, FirstSeen(c, cycles[..n]), cycles[n], a)
  }

  /** The key has been waiting in every cycle from s up to and including n, and not in the one before. */
  ghost predicate WaitsSince(c: Config, cycles: seq<Cycle>, key: Key, s: nat, n: nat)
    requires n < |cycles|
  {
    && s <= n
    && (forall i :: s <= i <= n ==> Waiting(c, cycles[i], key))
    && (s > 0 ==> !Waiting(c, cycles[s - 1], key))
  }

  lemma {:induction false} StreakExists(c: Config, cycles: seq<Cycle>, key: Key, n: nat) returns (s: nat)
    requires n < |cycles| && Waiting(c, cycles[n], key)
    ensures WaitsSince(c, cycles, key, s, n)
  {
    s := n;
    if n > 0 && Waiting(c, cycles[n - 1], key) {
      s := StreakExists(c, cycles, key, n - 1);
    }
  }

  /** Only keys that wait in the latest cycle are remembered. */
  lemma NothingStale(c: Config, cycles: seq<Cycle>, key: Key)
    requires cycles != [] && key in FirstSeen(c, cycles)
    ensures Waiting(c, cycles[|cycles| - 1], key) && key in CandidateKeys(c, cycles[|cycles| - 1])
  {
  }

  /** Without grace nothing is ever remembered. */
  lemma {:induction false} NoGraceNoMemory(c: Config, cycles: seq<Cycle>)
    requires c.grace <= 0.0
    ensures FirstSeen(c, cycles) == map[]
  {
    if cycles != [] { NoGraceNoMemory(c, cycles[..|cycles| - 1]); }
  }

  lemma FirstSeenStep(c: Config, cycles: seq<Cycle>, n: nat)
    requires 0 < n <= |cycles|
    ensures FirstSeen(c, cycles[..n]) == FirstSeenAfter(c, FirstSeen(c, cycles[..n - 1]), cycles[n - 1])
  {
    assert cycles[..n][..n - 1] == cycles[..n - 1];
  }

  /** The age of a waiting key counts from the first cycle of its current streak. */
  lemma {:induction false} SinceStartOfStreak(c: Config, cycles: seq<Cycle>, key: Key, s: nat, n: nat)
    requires c.grace > 0.0 && n < |cycles| && WaitsSince(c, cycles, key, s, n)
    ensures Since(FirstSeen(c, cycles[..n]), cycles[n].now, key) == cycles[s].now
    decreases n
  {
    if s < n {
      SinceStartOfStreak(c, cycles, key, s, n - 1);
      FirstSeenStep(c, cycles, n);
    } else if n > 0 {
      FirstSeenStep(c, cycles, n);
    }
  }

  lemma HeldWhileYoung(c: Config, cycles: seq<Cycle>, s: nat, n: nat, a: Anomaly)
    requires n < |cycles| && WaitsSince(c, cycles, a.IdentityKey(), s, n)
    ensures HeldIn(c, cycles, n, a) <==> 0.0 < c.grace && cycles[n].now - cycles[s].now < c.grace
  {
    if c.grace > 0.0 { SinceStartOfStreak(c, cycles, a.IdentityKey(), s, n); }
  }

  /**
   Over every run: a cycle holds an anomaly back exactly when its key has been
   waiting, in every cycle since some cycle s, for less than the grace period.
   */
  lemma HeldExactlyDuringGrace(c: Config, cycles: seq<Cycle>, n: nat, a: Anomaly)
    requires n < |cycles|
    ensures HeldIn(c, cycles, n, a) <==>
            exists s: nat :: && WaitsSince(c, cycles, a.IdentityKey(), s, n)
                             && 0.0 < c.grace && cycles[n].now - cycles[s].now < c.grace
  {
    if Waiting(c, cycles[n], a.IdentityKey()) {
      var s := StreakExists(c, cycles, a.IdentityKey(), n);
      HeldWhileYoung(c, cycles, s, n, a);
      forall t: nat | WaitsSince(c, cycles, a.IdentityKey(), t, n) ensures t == s {
        OneStart(c, cycles, a.IdentityKey(), s, t, n);
        OneStart(c, cycles, a.IdentityKey(), t, s, n);
      }
    }
  }

  lemma OneStart(c: Config, cycles: seq<Cycle>, key: Key, s: nat, t: nat, n: nat)
    requires n < |cycles| && WaitsSince(c, cycles, key, s, n) && WaitsSince(c, cycles, key, t, n)
    ensures s <= t
  {
  }

  /** With a clock that does not run backwards, an anomaly once released stays released while its key waits. */
  lemma ReleasedStaysReleased(c: Config, cycles: seq<Cycle>, s: nat, m: nat, n: nat, a: Anomaly)
    requires m <= n < |cycles| && cycles[m].now <= cycles[n].now
    requires WaitsSince(c, cycles, a.IdentityKey(), s, n) && s <= m
    requires !HeldIn(c, cycles, m, a)
    ensures !HeldIn(c, cycles, n, a)
  {
    HeldWhileYoung(c, cycles, s, m, a);
    HeldWhileYoung(c, cycles, s, n, a);
  }

  /** The output of a cycle without a chain is its input without the held anomalies, in order. */
  lemma {:induction false} NotHeldContents(
    c: Config, firstSeen: map<Key, real>, keys: set<Key>, now: real, anomalies: seq<Anomaly>, a: Anomaly)
    ensures multiset(NotHeld(c, firstSeen, keys, now, anomalies))[a]
         == if Holds(c, firstSeen, keys, now, a) then 0 else multiset(anomalies)[a]
  {
    if anomalies != [] {
      var front, last := anomalies[..|anomalies| - 1], anomalies[|anomalies| - 1];
      NotHeldContents(c, firstSeen, keys, now, front, a);
      assert anomalies == front + [last];
    }
  }

  /** Whatever a cycle does not hold it passes on, as often as it came in, and nothing else. */
  lemma CycleKeepsTheRest(c: Config, firstSeen: map<Key, real>, y: Cycle, a: Anomaly)
    requires !ChainSeen(c, y)
    ensures multiset(Released(c, firstSeen, y))[a]
         == if Held(c, firstSeen, y, a) then 0 else multiset(y.anomalies)[a]
  {
    NotHeldContents(c, firstSeen, CandidateKeys(c, y), y.now, y.anomalies, a);
  }

  // Held anomalies and candidates

  /** An anomaly of the cycle other than `a` that shares its identity and is a candidate. */
  ghost predicate HasTwin(c: Config, y: Cycle, a: Anomaly) {
    exists b :: && b in y.anomalies && b != a && b.IdentityKey() == a.IdentityKey()
                && CrossMinionCandidate(b, y.edges, c.traffic)
  }

  /** A non-candidate is held exactly when a candidate of the same identity is, and then along with it. */
  lemma NonCandidateHeldExactlyWhen(c: Config, firstSeen: map<Key, real>, y: Cycle, a: Anomaly)
    requires a in y.anomalies && !CrossMinionCandidate(a, y.edges, c.traffic)
    ensures Held(c, firstSeen, y, a) <==>
            && HasTwin(c, y, a)
            && !ChainSeen(c, y) && 0.0 < c.grace && y.now - Since(firstSeen, y.now, a.IdentityKey()) < c.grace
  {
    if HasTwin(c, y, a) {
      var b :| b in y.anomalies && b.IdentityKey() == a.IdentityKey() && CrossMinionCandidate(b, y.edges, c.traffic);
      assert b.IdentityKey() in CandidateKeys(c, y);
    }
  }

  /**
   What the detectors emit in one cycle, as far as correlation reads it: one
   reading of the Apache workers a minion, and one wait a minion and database,
   which is what its resource names.
   */
  ghost predicate AsDetected(anomalies: seq<Anomaly>) {
    forall i, j :: 0 <= i < j < |anomalies| && anomalies[i].minion == anomalies[j].minion ==>
      && !(anomalies[i].metric == anomalies[j].metric == APACHE_METRIC)
      && (anomalies[i].metric == anomalies[j].metric == POSTGRES_METRIC ==>
            OrEmpty(anomalies[i].resource) != OrEmpty(anomalies[j].resource))
  }

  lemma DetectedIdentitiesDiffer(anomalies: seq<Anomaly>, i: nat, j: nat)
    requires AsDetected(anomalies) && i < |anomalies| && j < |anomalies| && i != j
    requires anomalies[i].metric == APACHE_METRIC || anomalies[i].metric == POSTGRES_METRIC
    ensures anomalies[i].IdentityKey() != anomalies[j].IdentityKey()
  {
  }

  /** So in this program an anomaly that is no candidate is never held, whatever the window remembers. */
  lemma NonCandidatesPass(c: Config, firstSeen: map<Key, real>, y: Cycle, a: Anomaly)
    requires AsDetected(y.anomalies) && a in y.anomalies && !CrossMinionCandidate(a, y.edges, c.traffic)
    ensures !Held(c, firstSeen, y, a)
  {
    NonCandidateHeldExactlyWhen(c, firstSeen, y, a);
    var i :| 0 <= i < |y.anomalies| && y.anomalies[i] == a;
    forall b | b in y.anomalies && b != a && CrossMinionCandidate(b, y.edges, c.traffic)
      ensures b.IdentityKey() != a.IdentityKey()
    {
      var j :| 0 <= j < |y.anomalies| && y.anomalies[j] == b;
      DetectedIdentitiesDiffer(y.anomalies, j, i);
    }
  }

  /**
   The window itself accepts any list, and on one that no detector emits it does
   hold a non-candidate: two worker readings of one host, one of them with a
   traffic spike.
   */
  lemma BystanderIsHeld(host: string, peer: string, spike: real)
    returns (y: Cycle, bystander: Anomaly)
    requires host != "" && peer != "" && host != peer && 500.0 <= spike
    ensures var c := Config(90.0, 500.0);
            && bystander in y.anomalies
            && !CrossMinionCandidate(bystander, y.edges, c.traffic)
            && Held(c, map[], y, bystander)
  {
    var context := Context(Some(10.0), [], None, None, None);
    var quiet := Anomaly(host, APACHE_METRIC, None, None, Warning, 95.0, 90.0, context);
    bystander := quiet.(context := Context(Some(spike), [], None, None, None));
    y := Cycle([quiet, bystander], [Edge(Some(host), Some(peer))], 0.0);
    var c := Config(90.0, 500.0);
    NotPostgres();
    assert Concerns(y.edges[0], quiet, c.traffic);
    assert quiet in y.anomalies && quiet.IdentityKey() in CandidateKeys(c, y);
    OneSidedCycleHasNoChain(c, y);
  }

  /** Apache symptoms alone form no chain. */
  lemma OneSidedCycleHasNoChain(c: Config, y: Cycle)
    requires forall a <- y.anomalies :: a.metric == APACHE_METRIC
    ensures !ChainSeen(c, y)
  {
    NotPostgres();
    var i, j := CorrelationConserves(y.anomalies, y.edges, c.traffic);
    assert APACHE_METRIC[0] == 'a' && CHAIN_METRIC[0] == 'p';
  }

  lemma NotPostgres()
    ensures APACHE_METRIC != POSTGRES_METRIC
  {
    assert APACHE_METRIC[0] != POSTGRES_METRIC[0];
  }
}
