/**
 Emission rate limit: within one generation of an incident, acknowledgements
 that are less than a cooldown apart must each raise the acknowledged severity.
 */
module RateLimit {
  import opened Domain
  import opened StoreModel

  /** One cycle of the incident's minion, and when its firing was acknowledged, if it was before the next cycle. */
  datatype Poll = Poll(anomalies: seq<Anomaly>, now: real, acked: Option<real>)

  datatype Ack = Ack(at: real, severity: Severity)

  function Chosen(p: Poll, fp: Key): map<Key, Anomaly> {
    PreferMoreSevere(OfMinion(p.anomalies, fp.minion)).chosen
  }

  predicate Fires(c: Config, rows: Rows, fp: Key, p: Poll) {
    fp in Chosen(p, fp) && ShouldFire(c, rows, fp.minion, fp, Chosen(p, fp)[fp].severity, p.now)
  }

  predicate Acknowledged(c: Config, rows: Rows, fp: Key, p: Poll) {
    p.acked.Some? && Fires(c, rows, fp, p)
  }

  /** The acknowledgement that a poll brings about: the severity it fired with is the one delivered. */
  function AckOf(fp: Key, p: Poll): Ack
    requires p.acked.Some? && fp in Chosen(p, fp)
  {
    Ack(p.acked.value, Chosen(p, fp)[fp].severity)
  }

  function Next(c: Config, rows: Rows, fp: Key, p: Poll): Rows {
    var rows' := Reconcile(rows, fp.minion, OfMinion(p.anomalies, fp.minion), p.now);
    if Acknowledged(c, rows, fp, p) && fp in rows' then
      MarkEmitted(rows', fp, Payload(Labels(fp, AckOf(fp, p).severity), rows'[fp].startsAt), AckOf(fp, p).at,
                  Some(rows'[fp].startsAt))
    else
      rows'
  }

  /** The acknowledgements of a run of polls, in order. */
  function Acks(c: Config, rows: Rows, fp: Key, polls: seq<Poll>): seq<Ack>
    decreases |polls|
  {
    if polls == [] then
      []
    else
      (if Acknowledged(c, rows, fp, polls[0]) then [AckOf(fp, polls[0])] else [])
      + Acks(c, Next(c, rows, fp, polls[0]), fp, polls[1..])
  }

  /** The first poll's acknowledgement comes first, if it has one. */
  lemma AcksOf(c: Config, rows: Rows, fp: Key, polls: seq<Poll>)
    requires polls != []
    ensures var rest := Acks(c, Next(c, rows, fp, polls[0]), fp, polls[1..]);
            Acks(c, rows, fp, polls)
              == if Acknowledged(c, rows, fp, polls[0]) then [AckOf(fp, polls[0])] + rest else rest
  {
  }

  /** The clock does not run backwards: not within a poll, and not from one poll to the next. */
  ghost predicate Monotone(polls: seq<Poll>) {
    && (forall i :: 0 <= i < |polls| && polls[i].acked.Some? ==> polls[i].now <= polls[i].acked.value)
    && (forall i, j :: 0 <= i < j < |polls| ==>
          polls[i].now <= polls[j].now && (polls[i].acked.Some? ==> polls[i].acked.value <= polls[j].now))
  }

  /** The row's last acknowledgement. */
  ghost predicate LastAck(rows: Rows, fp: Key, a: Ack) {
    && IsActive(rows, fp.minion, fp)
    && rows[fp].lastEmitted == Some(a.at) && EmittedRank(rows[fp]) == Rank(a.severity)
  }

  /** A poll without an acknowledgement keeps the last one, and one with an acknowledgement records it. */
  lemma NextAck(c: Config, rows: Rows, fp: Key, p: Poll)
    requires Keyed(rows)
    ensures Keyed(Next(c, rows, fp, p))
    ensures Acknowledged(c, rows, fp, p) ==> LastAck(Next(c, rows, fp, p), fp, AckOf(fp, p))
    ensures !Acknowledged(c, rows, fp, p) ==> forall a :: LastAck(rows, fp, a) ==> LastAck(Next(c, rows, fp, p), fp, a)
  {
    ReconcileKeepsKeyed(rows, fp.minion, p.anomalies, p.now);
    ReconcileAt(rows, fp.minion, OfMinion(p.anomalies, fp.minion), p.now, fp);
  }

  /** The first acknowledgement after another: a cooldown later, or strictly more severe. */
  predicate Spaced(c: Config, a: Ack, b: Ack) {
    b.at - a.at >= c.cooldownSeconds as real || Rank(b.severity) > Rank(a.severity)
  }

  lemma {:induction false} FirstAckIsSpaced(c: Config, rows: Rows, fp: Key, polls: seq<Poll>, a: Ack)
    requires Keyed(rows) && LastAck(rows, fp, a) && Monotone(polls)
    requires Acks(c, rows, fp, polls) != []
    ensures Spaced(c, a, Acks(c, rows, fp, polls)[0])
    decreases |polls|
  {
    NextAck(c, rows, fp, polls[0]);
    if !Acknowledged(c, rows, fp, polls[0]) {
      FirstAckIsSpaced(c, Next(c, rows, fp, polls[0]), fp, polls[1..], a);
    }
  }

  ghost predicate AllSpaced(c: Config, acks: seq<Ack>) {
    forall i :: 0 <= i < |acks| - 1 ==> Spaced(c, acks[i], acks[i + 1])
  }

  /** Every two consecutive acknowledgements are spaced. */
  lemma {:induction false} ConsecutiveAcksAreSpaced(c: Config, rows: Rows, fp: Key, polls: seq<Poll>)
    requires Keyed(rows) && Monotone(polls)
    ensures AllSpaced(c, Acks(c, rows, fp, polls))
    decreases |polls|
  {
    if polls != [] {
      var next := Next(c, rows, fp, polls[0]);
      NextAck(c, rows, fp, polls[0]);
      AcksOf(c, rows, fp, polls);
      ConsecutiveAcksAreSpaced(c, next, fp, polls[1..]);
      var rest := Acks(c, next, fp, polls[1..]);
      if Acknowledged(c, rows, fp, polls[0]) && rest != [] {
        FirstAckIsSpaced(c, next, fp, polls[1..], AckOf(fp, polls[0]));
      }
    }
  }

  ghost predicate InTimeOrder(acks: seq<Ack>, from: real) {
    && (forall i :: 0 <= i < |acks| ==> from <= acks[i].at)
    && (forall i, j :: 0 <= i < j < |acks| ==> acks[i].at <= acks[j].at)
  }

  lemma PrependInOrder(ack: Ack, acks: seq<Ack>, from: real)
    requires from <= ack.at && InTimeOrder(acks, ack.at)
    ensures InTimeOrder([ack] + acks, from)
  {
    var all := [ack] + acks;
    forall i | 0 <= i < |all| ensures from <= ack.at <= all[i].at {
      if i > 0 { assert all[i] == acks[i - 1]; }
    }
    forall i, j | 0 <= i < j < |all| ensures all[i].at <= all[j].at {
      if i > 0 { assert all[i] == acks[i - 1] && all[j] == acks[j - 1]; }
    }
  }

  lemma {:induction false} AcksInTimeOrder(c: Config, rows: Rows, fp: Key, polls: seq<Poll>, from: real)
    requires Monotone(polls) && forall k :: 0 <= k < |polls| ==> from <= polls[k].now
    ensures InTimeOrder(Acks(c, rows, fp, polls), from)
    decreases |polls|
  {
    if polls != [] {
      AcksOf(c, rows, fp, polls);
      var acked := Acknowledged(c, rows, fp, polls[0]);
      AcksInTimeOrder(c, Next(c, rows, fp, polls[0]), fp, polls[1..], if acked then polls[0].acked.value else from);
      if acked {
        PrependInOrder(AckOf(fp, polls[0]), Acks(c, Next(c, rows, fp, polls[0]), fp, polls[1..]), from);
      }
    }
  }

  /** Acknowledgements less than a cooldown apart climb one severity rank each. */
  lemma {:induction false} SpacedAcksEscalate(c: Config, acks: seq<Ack>, from: real, i: nat, j: nat)
    requires AllSpaced(c, acks) && InTimeOrder(acks, from)
    requires i <= j < |acks| && acks[j].at - acks[i].at < c.cooldownSeconds as real
    ensures j - i <= Rank(acks[j].severity) - Rank(acks[i].severity)
    decreases j
  {
    if i < j {
      assert Spaced(c, acks[j - 1], acks[j]);
      SpacedAcksEscalate(c, acks, from, i, j - 1);
    }
  }

  /**
   Any window shorter than the cooldown holds at most three acknowledged firings
   of an incident, or four if the first had a severity outside the known three.
   */
  lemma AtMostThreeAcksInAWindow(c: Config, rows: Rows, fp: Key, polls: seq<Poll>, i: nat, j: nat)
    requires Keyed(rows) && Monotone(polls)
    requires var acks := Acks(c, rows, fp, polls);
             i <= j < |acks| && acks[j].at - acks[i].at < c.cooldownSeconds as real
    ensures var first := Acks(c, rows, fp, polls)[i].severity; j - i + 1 <= if first.Other? then 4 else 3
  {
    var from := if polls == [] then 0.0 else polls[0].now;
    ConsecutiveAcksAreSpaced(c, rows, fp, polls);
    AcksInTimeOrder(c, rows, fp, polls, from);
    SpacedAcksEscalate(c, Acks(c, rows, fp, polls), from, i, j);
  }

  // The bound is reached

  function Sighting(fp: Key, severity: Severity): Anomaly {
    var context := Context(None, [], None, None, None);
    Anomaly(fp.minion, fp.metric, Some(fp.service), Some(fp.resource), severity, 0.0, 0.0, context)
  }

  /** One poll a severity, each acknowledged at once. */
  function Escalation(fp: Key, severities: seq<Severity>, times: seq<real>): seq<Poll>
    requires |severities| == |times|
  {
    seq(|times|, (k: nat) requires k < |times| => Poll([Sighting(fp, severities[k])], times[k], Some(times[k])))
  }

  lemma SightingIsAcknowledged(c: Config, rows: Rows, fp: Key, severity: Severity, at: real)
    requires Keyed(rows) && (IsActive(rows, fp.minion, fp) ==> EmittedRank(rows[fp]) < Rank(severity))
    ensures var p := Poll([Sighting(fp, severity)], at, Some(at));
            && Acknowledged(c, rows, fp, p) && AckOf(fp, p) == Ack(at, severity)
            && Keyed(Next(c, rows, fp, p)) && LastAck(Next(c, rows, fp, p), fp, Ack(at, severity))
  {
    var a := Sighting(fp, severity);
    var p := Poll([a], at, Some(at));
    assert [a][1..] == [] && [a][..0] == [];
    assert OfMinion([a], fp.minion) == [a];
    assert PreferMoreSevere([]) == Selection([], map[]);
    assert Chosen(p, fp) == map[fp := a];
    NextAck(c, rows, fp, p);
  }

  ghost predicate Climbs(severities: seq<Severity>) {
    forall i, j :: 0 <= i < j < |severities| ==> Rank(severities[i]) < Rank(severities[j])
  }

  function AckEach(severities: seq<Severity>, times: seq<real>): seq<Ack>
    requires |severities| == |times|
  {
    seq(|times|, (k: nat) requires k < |times| => Ack(times[k], severities[k]))
  }

  lemma FirstOfEscalation(fp: Key, severities: seq<Severity>, times: seq<real>)
    requires |severities| == |times| && times != []
    ensures var polls := Escalation(fp, severities, times);
            && polls[0] == Poll([Sighting(fp, severities[0])], times[0], Some(times[0]))
            && polls[1..] == Escalation(fp, severities[1..], times[1..])
    ensures AckEach(severities, times) == [Ack(times[0], severities[0])] + AckEach(severities[1..], times[1..])
  {
  }

  /** Polls of ever higher severity are all acknowledged, however close they are. */
  lemma {:induction false} EscalationIsAcknowledged(
    c: Config, rows: Rows, fp: Key, severities: seq<Severity>, times: seq<real>)
    requires Keyed(rows) && |severities| == |times| && Climbs(severities)
    requires severities != [] && IsActive(rows, fp.minion, fp) ==> EmittedRank(rows[fp]) < Rank(severities[0])
    ensures Acks(c, rows, fp, Escalation(fp, severities, times)) == AckEach(severities, times)
    decreases |times|
  {
    if times != [] {
      var polls := Escalation(fp, severities, times);
      FirstOfEscalation(fp, severities, times);
      SightingIsAcknowledged(c, rows, fp, severities[0], times[0]);
      AcksOf(c, rows, fp, polls);
      EscalationIsAcknowledged(c, Next(c, rows, fp, polls[0]), fp, severities[1..], times[1..]);
    }
  }

  /**
   The bound is attained wherever three moments, or four after an unknown
   severity, lie within a cooldown: an incident that climbs through the
   severities is acknowledged at each of them.
   */
  lemma BoundIsReached(c: Config, fp: Key, times: seq<real>, first: Severity)
    returns (severities: seq<Severity>)
    requires |times| == if first.Other? then 4 else 3
    requires first.Other? || first.Info?
    ensures |severities| == |times| && severities[0] == first
    ensures Acks(c, map[], fp, Escalation(fp, severities, times)) == AckEach(severities, times)
  {
    severities := if first.Other? then [first, Info, Warning, Critical] else [Info, Warning, Critical];
    EscalationIsAcknowledged(c, map[], fp, severities, times);
  }
}
