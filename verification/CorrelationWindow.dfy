/** What one cycle of the correlation window holds back, releases and remembers. */
module WindowModel {
  import opened Domain
  import opened Correlation

  /** The window's settings; the constructor clips both at zero. */
  datatype Config = Config(grace: real, traffic: real)

  /** One poll cycle as the window sees it. */
  datatype Cycle = Cycle(anomalies: seq<Anomaly>, edges: seq<Edge>, now: real)

  predicate Names(text: Option<string>) {
    text.Some? && text.value != ""
  }

  /** The edge is complete and the anomaly is a candidate on its side of it. */
  predicate Concerns(e: Edge, a: Anomaly, traffic: real) {
    && e.Edge? && Names(e.postgres) && Names(e.apache)
    && (|| (e.postgres == Some(a.minion) && PostgresCandidate(a))
        || (e.apache == Some(a.minion) && ApacheCandidate(a, traffic)))
  }

  predicate CrossMinionCandidate(a: Anomaly, edges: seq<Edge>, traffic: real) {
    exists e :: e in edges && Concerns(e, a, traffic)
  }

  function CandidateKeys(c: Config, y: Cycle): set<Key> {
    set a | a in y.anomalies && CrossMinionCandidate(a, y.edges, c.traffic) :: a.IdentityKey()
  }

  ghost predicate ChainSeen(c: Config, y: Cycle) {
    exists a :: a in Correlated(y.anomalies, y.edges, c.traffic) && a.metric == CHAIN_METRIC
  }

  /** The cycle leaves the key waiting for its counterpart. */
  ghost predicate Waiting(c: Config, y: Cycle, key: Key) {
    !ChainSeen(c, y) && key in CandidateKeys(c, y)
  }

  function Since(firstSeen: map<Key, real>, now: real, key: Key): real {
    if key in firstSeen then firstSeen[key] else now
  }

  /** Waiting keys are held while they are young; a window without grace holds nothing. */
  predicate Holds(c: Config, firstSeen: map<Key, real>, keys: set<Key>, now: real, a: Anomaly) {
    c.grace > 0.0 && a.IdentityKey() in keys && now - Since(firstSeen, now, a.IdentityKey()) < c.grace
  }

  function NotHeld(c: Config, firstSeen: map<Key, real>, keys: set<Key>, now: real, anomalies: seq<Anomaly>)
    : seq<Anomaly>
  {
    if anomalies == [] then
      []
    else
      var front, last := anomalies[..|anomalies| - 1], anomalies[|anomalies| - 1];
      NotHeld(c, firstSeen, keys, now, front) + (if Holds(c, firstSeen, keys, now, last) then [] else [last])
  }

  /** What is remembered of the keys that wait. */
  function Remembered(c: Config, firstSeen: map<Key, real>, keys: set<Key>, now: real): map<Key, real> {
    map key | key in keys && (c.grace > 0.0 || key in firstSeen) :: Since(firstSeen, now, key)
  }

  ghost function FirstSeenAfter(c: Config, firstSeen: map<Key, real>, y: Cycle): map<Key, real> {
    if ChainSeen(c, y) then map[] else Remembered(c, firstSeen, CandidateKeys(c, y), y.now)
  }

  ghost predicate Held(c: Config, firstSeen: map<Key, real>, y: Cycle, a: Anomaly) {
    !ChainSeen(c, y) && Holds(c, firstSeen, CandidateKeys(c, y), y.now, a)
  }

  ghost function Released(c: Config, firstSeen: map<Key, real>, y: Cycle): seq<Anomaly> {
    if ChainSeen(c, y) then
      Correlated(y.anomalies, y.edges, c.traffic)
    else
      NotHeld(c, firstSeen, CandidateKeys(c, y), y.now, y.anomalies)
  }

  ghost function HeldCount(c: Config, firstSeen: map<Key, real>, y: Cycle): int {
    if ChainSeen(c, y) then 0 else |y.anomalies| - |Released(c, firstSeen, y)|
  }

  // What the notions above mean

  /** A candidate is an Apache or PostgreSQL symptom on its own side of a complete declared edge. */
  lemma CandidateMeans(a: Anomaly, edges: seq<Edge>, traffic: real)
    ensures CrossMinionCandidate(a, edges, traffic) <==>
            exists e :: && e in edges && e.Edge?
                        && e.postgres.Some? && e.postgres.value != "" && e.apache.Some? && e.apache.value != ""
                        && (|| (&& a.minion == e.postgres.value && a.metric == "postgres_blocked_transaction"
                                && exists k :: 0 <= k < |a.context.blockedWebTier| && a.context.blockedWebTier[k])
                            || (&& a.minion == e.apache.value && a.metric == "apache_busy_workers"
                                && a.context.requestsPerSecond.Some?
                                && a.context.requestsPerSecond.value < traffic))
  {
    if CrossMinionCandidate(a, edges, traffic) {
      var e :| e in edges && Concerns(e, a, traffic);
    }
    if e :| e in edges && e.Edge? && Names(e.postgres) && Names(e.apache)
            && ((a.minion == e.postgres.value && PostgresCandidate(a))
                || (a.minion == e.apache.value && ApacheCandidate(a, traffic))) {
      assert Concerns(e, a, traffic);
    }
  }

  /** A cycle shows a chain exactly if some pair is eligible, or a chain came in. */
  lemma ChainSeenExactlyWhen(c: Config, y: Cycle)
    ensures ChainSeen(c, y) <==>
            || (exists i: nat, j: nat :: Eligible(y.anomalies, y.edges, c.traffic, i, j))
            || (exists a :: a in y.anomalies && a.metric == "postgres_apache_chain")
  {
    var r := Correlated(y.anomalies, y.edges, c.traffic);
    var i, j := CorrelationConserves(y.anomalies, y.edges, c.traffic);
    if x: nat, z: nat :| Eligible(y.anomalies, y.edges, c.traffic, x, z) {
      assert r[if i < j then i else j] in r;
    }
  }

  /** With a chain in sight nothing is held or remembered: the correlated list is passed on. */
  lemma ChainReleasesAll(c: Config, firstSeen: map<Key, real>, y: Cycle)
    requires ChainSeen(c, y)
    ensures Released(c, firstSeen, y) == Correlated(y.anomalies, y.edges, c.traffic)
    ensures HeldCount(c, firstSeen, y) == 0 && FirstSeenAfter(c, firstSeen, y) == map[]
    ensures forall a :: !Held(c, firstSeen, y, a)
  {
  }

  ghost predicate Rising(places: seq<nat>) {
    forall i, j :: 0 <= i < j < |places| ==> places[i] < places[j]
  }

  /** What stands at these places of a list. */
  ghost predicate TakenAt(r: seq<Anomaly>, places: seq<nat>, anomalies: seq<Anomaly>) {
    |r| == |places| && forall i :: 0 <= i < |r| ==> places[i] < |anomalies| && r[i] == anomalies[places[i]]
  }

  lemma OneMorePlace(r: seq<Anomaly>, places: seq<nat>, front: seq<Anomaly>, last: Anomaly)
    requires Rising(places) && TakenAt(r, places, front)
    ensures Rising(places + [|front|]) && TakenAt(r + [last], places + [|front|], front + [last])
    ensures TakenAt(r, places, front + [last])
  {
  }

  lemma {:induction false} NotHeldInOrder(
    c: Config, firstSeen: map<Key, real>, keys: set<Key>, now: real, anomalies: seq<Anomaly>)
    returns (places: seq<nat>)
    ensures Rising(places) && TakenAt(NotHeld(c, firstSeen, keys, now, anomalies), places, anomalies)
    ensures forall k: nat :: k in places <==> k < |anomalies| && !Holds(c, firstSeen, keys, now, anomalies[k])
  {
    places := [];
    if anomalies != [] {
      var front, last := anomalies[..|anomalies| - 1], anomalies[|anomalies| - 1];
      places := NotHeldInOrder(c, firstSeen, keys, now, front);
      OneMorePlace(NotHeld(c, firstSeen, keys, now, front), places, front, last);
      assert anomalies == front + [last] && forall k: nat :: k < |front| ==> anomalies[k] == front[k];
      if !Holds(c, firstSeen, keys, now, last) { places := places + [|front|]; }
    }
  }

  /**
   A cycle without a chain passes on what it does not hold, in the order in which it
   came, and the count it keeps is that of the rest.
   */
  lemma ReleasedInOrder(c: Config, firstSeen: map<Key, real>, y: Cycle) returns (places: seq<nat>)
    requires !ChainSeen(c, y)
    ensures Rising(places) && TakenAt(Released(c, firstSeen, y), places, y.anomalies)
    ensures forall k: nat :: k in places <==> k < |y.anomalies| && !Held(c, firstSeen, y, y.anomalies[k])
    ensures HeldCount(c, firstSeen, y) == |y.anomalies| - |places|
  {
    places := NotHeldInOrder(c, firstSeen, CandidateKeys(c, y), y.now, y.anomalies);
  }

  /** Without a chain in sight correlation changes nothing, so only held anomalies are missing. */
  lemma NoChainNoChange(c: Config, y: Cycle)
    requires !ChainSeen(c, y)
    ensures Correlated(y.anomalies, y.edges, c.traffic) == y.anomalies
  {
    var i, j := CorrelationConserves(y.anomalies, y.edges, c.traffic);
    if x: nat, z: nat :| Eligible(y.anomalies, y.edges, c.traffic, x, z) {
      assert false;
    }
  }
}

module CorrelationWindowClass {
  import opened Domain
  import opened Correlation
  import opened WindowModel

  class DependencyCorrelationWindow {
    const graceSeconds: real
    const apacheTrafficThreshold: real
    var firstSeen: map<Key, real>
    var lastHeldCount: int

    function Settings(): Config {
      Config(graceSeconds, apacheTrafficThreshold)
    }

    constructor (grace: real, traffic: real)
      ensures firstSeen == map[] && lastHeldCount == 0
      ensures Settings() == Config(if grace < 0.0 then 0.0 else grace, if traffic < 0.0 then 0.0 else traffic)
    {
      graceSeconds := if grace < 0.0 then 0.0 else grace;
      apacheTrafficThreshold := if traffic < 0.0 then 0.0 else traffic;
      firstSeen, lastHeldCount := map[], 0;
    }

    method IsCrossMinionCandidate(a: Anomaly, edges: seq<Edge>) returns (r: bool)
      ensures r == CrossMinionCandidate(a, edges, apacheTrafficThreshold)
    {
      for n := 0 to |edges|
        invariant forall e :: e in edges[..n] ==> !Concerns(e, a, apacheTrafficThreshold)
      {
        var e := edges[n];
        assert e in edges;
        if !e.Edge? {
          continue;
        }
        if !Names(e.postgres) || !Names(e.apache) {
          continue;
        }
        if e.postgres == Some(a.minion) && PostgresCandidate(a) {
          return true;
        }
        if e.apache == Some(a.minion) && ApacheCandidate(a, apacheTrafficThreshold) {
          return true;
        }
      }
      assert edges[..|edges|] == edges;
      r := false;
    }

    /** The keys of this cycle's candidates. */
    method CollectKeys(anomalies: seq<Anomaly>, edges: seq<Edge>, ghost now: real) returns (keys: set<Key>)
      ensures keys == CandidateKeys(Settings(), Cycle(anomalies, edges, now))
    {
      keys := {};
      for n := 0 to |anomalies|
        invariant keys == CandidateKeys(Settings(), Cycle(anomalies[..n], edges, now))
      {
        assert anomalies[..n + 1] == anomalies[..n] + [anomalies[n]];
        var candidate := IsCrossMinionCandidate(anomalies[n], edges);
        if candidate {
          keys := keys + {anomalies[n].IdentityKey()};
        }
      }
      assert anomalies[..|anomalies|] == anomalies;
    }

    /** Sort the anomalies of a cycle without a chain into held and released ones. */
    method HoldBack(anomalies: seq<Anomaly>, candidates: set<Key>, now: real) returns (result: seq<Anomaly>)
      requires 0.0 <= graceSeconds && lastHeldCount == 0
      requires firstSeen.Keys <= candidates
      requires forall key <- candidates :: exists a :: a in anomalies && a.IdentityKey() == key
      modifies this`firstSeen, this`lastHeldCount
      ensures result == NotHeld(Settings(), old(firstSeen), candidates, now, anomalies)
      ensures firstSeen == Remembered(Settings(), old(firstSeen), candidates, now)
      ensures lastHeldCount == |anomalies| - |result|
    {
      result := [];
      for n := 0 to |anomalies|
        invariant old(firstSeen).Keys <= firstSeen.Keys <= candidates
        invariant forall key <- firstSeen :: firstSeen[key] == Since(old(firstSeen), now, key)
        invariant graceSeconds == 0.0 ==> firstSeen == old(firstSeen)
        invariant graceSeconds > 0.0 ==>
          forall k :: 0 <= k < n && anomalies[k].IdentityKey() in candidates ==> anomalies[k].IdentityKey() in firstSeen
        invariant result == NotHeld(Settings(), old(firstSeen), candidates, now, anomalies[..n])
        invariant lastHeldCount == n - |result|
      {
        assert anomalies[..n + 1][..n] == anomalies[..n];
        var key := anomalies[n].IdentityKey();
        if key !in candidates || graceSeconds == 0.0 {
          result := result + [anomalies[n]];
          continue;
        }
        if key !in firstSeen {
          firstSeen := firstSeen[key := now];
        }
        if now - firstSeen[key] < graceSeconds {
          lastHeldCount := lastHeldCount + 1;
          continue;
        }
        result := result + [anomalies[n]];
      }
      assert anomalies[..|anomalies|] == anomalies;
    }

    method Correlate(anomalies: seq<Anomaly>, edges: seq<Edge>, now: real) returns (result: seq<Anomaly>)
      requires 0.0 <= graceSeconds
      modifies this
      ensures var y := Cycle(anomalies, edges, now);
              && result == Released(Settings(), old(firstSeen), y)
              && firstSeen == FirstSeenAfter(Settings(), old(firstSeen), y)
              && lastHeldCount == HeldCount(Settings(), old(firstSeen), y)
    {
      ghost var y := Cycle(anomalies, edges, now);
      lastHeldCount := 0;
      var correlated := CorrelateDependencyAnomalies(anomalies, edges, apacheTrafficThreshold);
      if exists a :: a in correlated && a.metric == CHAIN_METRIC {
        firstSeen := map[];
        return correlated;
      }
      var candidates := CollectKeys(anomalies, edges, now);
      firstSeen := map key | key in firstSeen && key in candidates :: firstSeen[key];
      result := HoldBack(anomalies, candidates, now);
      RestrictionIsEnough(Settings(), old(firstSeen), candidates, now, anomalies);
    }
  }

  /** Dropping the keys that are no candidates first makes no difference. */
  lemma {:induction false} RestrictionIsEnough(
    c: Config, firstSeen: map<Key, real>, keys: set<Key>, now: real, anomalies: seq<Anomaly>)
    ensures var kept := map key | key in firstSeen && key in keys :: firstSeen[key];
            && NotHeld(c, kept, keys, now, anomalies) == NotHeld(c, firstSeen, keys, now, anomalies)
            && Remembered(c, kept, keys, now) == Remembered(c, firstSeen, keys, now)
  {
    if anomalies != [] {
      RestrictionIsEnough(c, firstSeen, keys, now, anomalies[..|anomalies| - 1]);
    }
  }
}
