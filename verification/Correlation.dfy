/** Collapsing an Apache symptom and a PostgreSQL symptom into one dependency-chain anomaly. */
module Correlation {
  import opened Domain

  /** A configured dependency; entries that are not mappings are ignored. */
  datatype Edge = NotAMapping | Edge(apache: Option<string>, postgres: Option<string>)

  const APACHE_METRIC := "apache_busy_workers"
  const POSTGRES_METRIC := "postgres_blocked_transaction"
  const CHAIN_METRIC := "postgres_apache_chain"

  predicate ApacheCandidate(a: Anomaly, traffic: real) {
    && a.metric == APACHE_METRIC
    && a.context.requestsPerSecond.Some?
    && a.context.requestsPerSecond.value < traffic
  }

  predicate PostgresCandidate(a: Anomaly) {
    a.metric == POSTGRES_METRIC && true in a.context.blockedWebTier
  }

  predicate Linked(apache: Anomaly, postgres: Anomaly, edges: seq<Edge>) {
    apache.minion == postgres.minion || Edge(Some(apache.minion), Some(postgres.minion)) in edges
  }

  predicate Eligible(anomalies: seq<Anomaly>, edges: seq<Edge>, traffic: real, i: nat, j: nat) {
    && i < |anomalies| && j < |anomalies|
    && ApacheCandidate(anomalies[i], traffic)
    && PostgresCandidate(anomalies[j])
    && Linked(anomalies[i], anomalies[j], edges)
  }

  /** The eligible pair with the smallest Apache index, and with the smallest PostgreSQL index among those. */
  ghost predicate FirstPair(anomalies: seq<Anomaly>, edges: seq<Edge>, traffic: real, i: nat, j: nat) {
    && Eligible(anomalies, edges, traffic, i, j)
    && forall x: nat, y: nat :: Eligible(anomalies, edges, traffic, x, y) ==> i < x || (i == x && j <= y)
  }

  function ChainResource(apache: Anomaly, postgres: Anomaly): string {
    var database := if postgres.context.database.Some? then postgres.context.database.value else "unknown";
    if apache.minion != postgres.minion then
      "dependency-chain:" + postgres.minion + ":postgresql:" + database + "->" + apache.minion + ":apache"
    else
      "dependency-chain:postgresql:" + database + "->apache"
  }

  function Chain(apache: Anomaly, postgres: Anomaly): Anomaly {
    Anomaly(
      apache.minion,
      CHAIN_METRIC,
      Some("postgresql->apache2"),
      Some(ChainResource(apache, postgres)),
      if apache.severity.Critical? || postgres.severity.Critical? then Critical else Warning,
      postgres.value,
      postgres.threshold,
      postgres.context.(apacheMinion := Some(apache.minion), postgresMinion := Some(postgres.minion)))
  }

  /** `c` at position lo instead of what was there, and nothing in place of position hi. */
  function TwoToOne<T>(s: seq<T>, lo: nat, hi: nat, c: T): (r: seq<T>)
    requires lo < hi < |s|
    ensures |r| == |s| - 1
  {
    seq(|s| - 1, (q: nat) requires q < |s| - 1 => if q == lo then c else if q < hi then s[q] else s[q + 1])
  }

  /** The chain takes the place of the earlier of the two; the later one disappears. */
  function Merged(anomalies: seq<Anomaly>, i: nat, j: nat): seq<Anomaly>
    requires i < |anomalies| && j < |anomalies| && i != j
  {
    TwoToOne(anomalies, if i < j then i else j, if i < j then j else i, Chain(anomalies[i], anomalies[j]))
  }

  ghost function Correlated(anomalies: seq<Anomaly>, edges: seq<Edge>, traffic: real): seq<Anomaly> {
    if exists i: nat, j: nat :: FirstPair(anomalies, edges, traffic, i, j) then
      var i: nat, j: nat :| FirstPair(anomalies, edges, traffic, i, j);
      Merged(anomalies, i, j)
    else
      anomalies
  }

  // The search

  ghost predicate Increasing(indexes: seq<nat>) {
    forall x, y :: 0 <= x < y < |indexes| ==> indexes[x] < indexes[y]
  }

  /** `indexes` lists, in order, the Apache candidates among the first `limit` anomalies. */
  ghost predicate ListsApache(indexes: seq<nat>, anomalies: seq<Anomaly>, traffic: real, limit: nat)
    requires limit <= |anomalies|
  {
    && Increasing(indexes)
    && forall k: nat :: k in indexes <==> k < limit && ApacheCandidate(anomalies[k], traffic)
  }

  ghost predicate ListsPostgres(indexes: seq<nat>, anomalies: seq<Anomaly>, limit: nat)
    requires limit <= |anomalies|
  {
    && Increasing(indexes)
    && forall k: nat :: k in indexes <==> k < limit && PostgresCandidate(anomalies[k])
  }

  method ApacheIndexes(anomalies: seq<Anomaly>, traffic: real) returns (r: seq<nat>)
    ensures ListsApache(r, anomalies, traffic, |anomalies|)
  {
    r := [];
    for n := 0 to |anomalies|
      invariant ListsApache(r, anomalies, traffic, n)
    {
      if ApacheCandidate(anomalies[n], traffic) {
        assert forall x :: 0 <= x < |r| ==> r[x] in r;
        r := r + [n];
      }
    }
  }

  method PostgresIndexes(anomalies: seq<Anomaly>) returns (r: seq<nat>)
    ensures ListsPostgres(r, anomalies, |anomalies|)
  {
    r := [];
    for n := 0 to |anomalies|
      invariant ListsPostgres(r, anomalies, n)
    {
      if PostgresCandidate(anomalies[n]) {
        assert forall x :: 0 <= x < |r| ==> r[x] in r;
        r := r + [n];
      }
    }
  }

  method SelectPair(anomalies: seq<Anomaly>, edges: seq<Edge>, traffic: real, apache: seq<nat>, postgres: seq<nat>)
    returns (pair: Option<(nat, nat)>)
    requires ListsApache(apache, anomalies, traffic, |anomalies|)
    requires ListsPostgres(postgres, anomalies, |anomalies|)
    ensures pair.None? <==> forall i: nat, j: nat :: !Eligible(anomalies, edges, traffic, i, j)
    ensures pair.Some? ==> FirstPair(anomalies, edges, traffic, pair.value.0, pair.value.1)
  {
    for x := 0 to |apache|
      invariant forall i: nat, j: nat :: i in apache[..x] ==> !Eligible(anomalies, edges, traffic, i, j)
    {
      var i := apache[x];
      assert i in apache;
      for y := 0 to |postgres|
        invariant forall j: nat :: j in postgres[..y] ==> !Eligible(anomalies, edges, traffic, i, j)
      {
        var j := postgres[y];
        assert j in postgres;
        if Linked(anomalies[i], anomalies[j], edges) {
          assert Eligible(anomalies, edges, traffic, i, j);
          return Some((i, j));
        }
      }
    }
    pair := None;
    assert apache[..|apache|] == apache;
  }

  method CorrelateDependencyAnomalies(anomalies: seq<Anomaly>, edges: seq<Edge>, traffic: real)
    returns (result: seq<Anomaly>)
    ensures result == Correlated(anomalies, edges, traffic)
  {
    var apacheIndexes := ApacheIndexes(anomalies, traffic);
    var postgresIndexes := PostgresIndexes(anomalies);
    if apacheIndexes == [] || postgresIndexes == [] {
      return anomalies;
    }
    var selected := SelectPair(anomalies, edges, traffic, apacheIndexes, postgresIndexes);
    if selected.None? {
      return anomalies;
    }
    var (i, j) := selected.value;
    var correlated := Chain(anomalies[i], anomalies[j]);
    var lo := if i < j then i else j;
    ghost var hi := if i < j then j else i;
    result := [];
    for n := 0 to |anomalies|
      invariant result == TwoToOne(anomalies, lo, hi, correlated)[..if n <= hi then n else n - 1]
    {
      if n == lo {
        result := result + [correlated];
      }
      if n != i && n != j {
        result := result + [anomalies[n]];
      }
    }
    FirstPairUnique(anomalies, edges, traffic, i, j);
  }

  lemma FirstPairUnique(anomalies: seq<Anomaly>, edges: seq<Edge>, traffic: real, i: nat, j: nat)
    requires FirstPair(anomalies, edges, traffic, i, j)
    ensures i != j && Correlated(anomalies, edges, traffic) == Merged(anomalies, i, j)
  {
    forall x: nat, y: nat | FirstPair(anomalies, edges, traffic, x, y) ensures x == i && y == j {
      assert Eligible(anomalies, edges, traffic, x, y) && Eligible(anomalies, edges, traffic, i, j);
    }
  }

  // What correlation keeps

  lemma MergedElements(anomalies: seq<Anomaly>, i: nat, j: nat)
    requires i < |anomalies| && j < |anomalies| && i != j
    ensures var r := Merged(anomalies, i, j);
            && |r| == |anomalies| - 1
            && r[if i < j then i else j] == Chain(anomalies[i], anomalies[j])
            && forall k: nat :: k < |anomalies| && k != i && k != j ==>
                 r[if i < k && j < k then k - 1 else k] == anomalies[k]
  {
  }

  lemma TwoToOneMultiset<T>(s: seq<T>, lo: nat, hi: nat, c: T)
    requires lo < hi < |s|
    ensures multiset(TwoToOne(s, lo, hi, c)) + multiset{s[lo], s[hi]} == multiset(s) + multiset{c}
  {
    var p, q, r := s[..lo], s[lo + 1..hi], s[hi + 1..];
    assert s == p + ([s[lo]] + (q + ([s[hi]] + r)));
    assert TwoToOne(s, lo, hi, c) == p + ([c] + (q + r));
  }

  lemma MergedMultiset(anomalies: seq<Anomaly>, i: nat, j: nat)
    requires i < |anomalies| && j < |anomalies| && i != j
    ensures multiset(Merged(anomalies, i, j)) + multiset{anomalies[i], anomalies[j]}
         == multiset(anomalies) + multiset{Chain(anomalies[i], anomalies[j])}
  {
    TwoToOneMultiset(anomalies, if i < j then i else j, if i < j then j else i, Chain(anomalies[i], anomalies[j]));
  }

  /** What makes a pair eligible: a saturated Apache without a traffic spike, a blocked web tier, and a link. */
  lemma EligibleMeans(anomalies: seq<Anomaly>, edges: seq<Edge>, traffic: real, i: nat, j: nat)
    ensures Eligible(anomalies, edges, traffic, i, j) <==>
            && i < |anomalies| && j < |anomalies|
            && var apache, postgres := anomalies[i], anomalies[j];
            && apache.metric == "apache_busy_workers" && postgres.metric == "postgres_blocked_transaction"
            && apache.context.requestsPerSecond.Some? && apache.context.requestsPerSecond.value < traffic
            && (exists k :: 0 <= k < |postgres.context.blockedWebTier| && postgres.context.blockedWebTier[k])
            && (|| apache.minion == postgres.minion
                || exists e :: e in edges && e.Edge? && e.apache == Some(apache.minion)
                               && e.postgres == Some(postgres.minion))
  {
  }

  /** The incident of a chain: the Apache host's, described by the database, critical if a symptom is. */
  ghost predicate IsChainOf(chain: Anomaly, apache: Anomaly, postgres: Anomaly) {
    && chain.minion == apache.minion && chain.metric == "postgres_apache_chain"
    && chain.service == Some("postgresql->apache2")
    && chain.value == postgres.value && chain.threshold == postgres.threshold
    && (chain.severity == Critical <==> apache.severity == Critical || postgres.severity == Critical)
    && (chain.severity != Critical ==> chain.severity == Warning)
    && chain.context.apacheMinion == Some(apache.minion) && chain.context.postgresMinion == Some(postgres.minion)
    && chain.context.database == postgres.context.database
    && chain.context.blockedWebTier == postgres.context.blockedWebTier
    && var database := if postgres.context.database.Some? then postgres.context.database.value else "unknown";
       chain.resource == Some(
         if apache.minion == postgres.minion then
           "dependency-chain:postgresql:" + database + "->apache"
         else
           "dependency-chain:" + postgres.minion + ":postgresql:" + database + "->" + apache.minion + ":apache")
  }

  /**
   Either nothing happens, because no pair is eligible, or the first eligible pair
   becomes one chain at the earlier index and every other anomaly stays, in order.
   */
  lemma CorrelationConserves(anomalies: seq<Anomaly>, edges: seq<Edge>, traffic: real)
    returns (i: nat, j: nat)
    ensures var r := Correlated(anomalies, edges, traffic);
            if forall x: nat, y: nat :: !Eligible(anomalies, edges, traffic, x, y) then
              r == anomalies
            else
              && FirstPair(anomalies, edges, traffic, i, j)
              && i != j && |r| == |anomalies| - 1
              && var chain := r[if i < j then i else j];
              && IsChainOf(chain, anomalies[i], anomalies[j])
              && (forall k: nat :: k < |anomalies| && k != i && k != j ==>
                    r[if i < k && j < k then k - 1 else k] == anomalies[k])
              && multiset(r) + multiset{anomalies[i], anomalies[j]} == multiset(anomalies) + multiset{chain}
  {
    i, j := 0, 0;
    if x: nat, y: nat :| Eligible(anomalies, edges, traffic, x, y) {
      i, j := SmallestPair(anomalies, edges, traffic, x, y);
      FirstPairUnique(anomalies, edges, traffic, i, j);
      MergedElements(anomalies, i, j);
      MergedMultiset(anomalies, i, j);
    }
  }

  /** If any pair is eligible, one is the first. */
  lemma {:induction false} SmallestPair(anomalies: seq<Anomaly>, edges: seq<Edge>, traffic: real, x: nat, y: nat)
    returns (i: nat, j: nat)
    requires Eligible(anomalies, edges, traffic, x, y)
    ensures FirstPair(anomalies, edges, traffic, i, j)
    decreases x, y
  {
    if u: nat, v: nat :| Eligible(anomalies, edges, traffic, u, v) && (u < x || (u == x && v < y)) {
      i, j := SmallestPair(anomalies, edges, traffic, u, v);
    } else {
      i, j := x, y;
    }
  }

  /** A chain is eligible for nothing, so it is never merged again. */
  lemma ChainIsFinal(apache: Anomaly, postgres: Anomaly, traffic: real)
    ensures !ApacheCandidate(Chain(apache, postgres), traffic) && !PostgresCandidate(Chain(apache, postgres))
  {
    assert CHAIN_METRIC[9] == 'a' && APACHE_METRIC[9] == 's' && POSTGRES_METRIC[9] == 'b';
  }

  /** What two sequences have in common that differ by two elements taken out and one put in. */
  lemma MembersKept(s: seq<Anomaly>, r: seq<Anomaly>, a: Anomaly, b: Anomaly, c: Anomaly)
    requires multiset(r) + multiset{a, b} == multiset(s) + multiset{c}
    ensures forall x :: x in r ==> x == c || x in s
    ensures forall x :: x in s ==> x in r || x == a || x == b
  {
    forall x | x in r ensures x == c || x in s {
      assert x in multiset(r) + multiset{a, b};
    }
    forall x | x in s ensures x in r || x == a || x == b {
      assert x in multiset(s) + multiset{c};
    }
  }

  /** Correlation names no minion that was not there, and neither loses nor invents a critical anomaly. */
  lemma CorrelationKeepsMinionsAndCriticals(anomalies: seq<Anomaly>, edges: seq<Edge>, traffic: real)
    ensures var r := Correlated(anomalies, edges, traffic);
            && (forall a :: a in r ==> exists b :: b in anomalies && b.minion == a.minion)
            && ((exists a :: a in r && a.severity.Critical?) <==> (exists a :: a in anomalies && a.severity.Critical?))
  {
    var r := Correlated(anomalies, edges, traffic);
    var i, j := CorrelationConserves(anomalies, edges, traffic);
    if x: nat, y: nat :| Eligible(anomalies, edges, traffic, x, y) {
      var chain := r[if i < j then i else j];
      assert chain in r && anomalies[i] in anomalies && anomalies[j] in anomalies;
      MembersKept(anomalies, r, anomalies[i], anomalies[j], chain);
    }
  }
}
