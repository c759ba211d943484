/** Values shared by every component: severities, anomalies and the work derived from them. */
module Domain {

  datatype Option<+T> = None | Some(value: T)

  /** A lower-cased severity text. `Other("")` is the empty text that stands for a missing label. */
  datatype Severity = Info | Warning | Critical | Other(name: string)

  /** The store's severity ranking; an unknown text ranks below every known one. */
  function Rank(s: Severity): int {
    match s
    case Info => 0
    case Warning => 1
    case Critical => 2
    case Other(_) => -1
  }

  /** The queue's priority; smaller runs first and an unknown text runs last. */
  function Priority(s: Severity): nat {
    match s
    case Critical => 0
    case Warning => 1
    case Info => 2
    case Other(_) => 3
  }

  /** Critical before warning, warning before info, info before any other text. */
  predicate MoreSevere(a: Severity, b: Severity) {
    match a
    case Critical => !b.Critical?
    case Warning => b.Info? || b.Other?
    case Info => b.Other?
    case Other(_) => false
  }

  /** Store and queue rank severities alike, in opposite directions. */
  lemma RanksMean(a: Severity, b: Severity)
    ensures Rank(a) > Rank(b) <==> MoreSevere(a, b)
    ensures Priority(a) < Priority(b) <==> MoreSevere(a, b)
  {
  }

  /** The identity of an incident. The store's fingerprint is a digest of it, taken to be injective. */
  datatype Key = Key(minion: string, metric: string, service: string, resource: string)

  /** What the detectors put in an anomaly's context, as far as correlation reads it. */
  datatype Context = Context(
    requestsPerSecond: Option<real>,
    blockedWebTier: seq<bool>, // one entry a blocked pair: does its application name look like a web tier?
    database: Option<string>,
    apacheMinion: Option<string>,   // the two ends of a correlated chain
    postgresMinion: Option<string>)

  datatype Anomaly = Anomaly(
    minion: string,
    metric: string,
    service: Option<string>,
    resource: Option<string>,
    severity: Severity,
    value: real,
    threshold: real,
    context: Context)
  {
    function IdentityKey(): Key {
      Key(minion, metric, OrEmpty(service), OrEmpty(resource))
    }
  }

  /** Anomalies are one incident exactly if these four agree; a missing service or resource is an empty one. */
  lemma SameIdentity(a: Anomaly, b: Anomaly)
    ensures a.IdentityKey() == b.IdentityKey() <==>
            && a.minion == b.minion && a.metric == b.metric
            && (a.service == b.service || (a.service in {None, Some("")} && b.service in {None, Some("")}))
            && (a.resource == b.resource || (a.resource in {None, Some("")} && b.resource in {None, Some("")}))
    ensures a.IdentityKey().minion == a.minion
  {
  }

  function OrEmpty(text: Option<string>): string {
    if text.Some? then text.value else ""
  }

  /** The labels Alertmanager identifies an alert by. */
  datatype Labels = Labels(key: Key, severity: Severity)

  /** A firing payload: its label identity and the start of the generation it belongs to. */
  datatype Payload = Payload(labels: Labels, startsAt: int)

  /** One incident that `reconcile` wants notified, with the payload stored at that moment. */
  datatype Firing = Firing(anomaly: Anomaly, fingerprint: Key, startsAt: int, previous: Option<Payload>)

  /** A queued investigation. */
  datatype Work = Work(firing: Firing, detectedAt: real)

  /** The anomalies of the cycle that belong to one minion. */
  function OfMinion(cycle: seq<Anomaly>, minion: string): (r: seq<Anomaly>)
    ensures forall a :: a in r <==> a in cycle && a.minion == minion
  {
    if cycle == [] then
      []
    else
      assert cycle == [cycle[0]] + cycle[1..];
      (if cycle[0].minion == minion then [cycle[0]] else []) + OfMinion(cycle[1..], minion)
  }
}
