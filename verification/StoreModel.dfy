/**
 The incident table as a value: a map from fingerprint to row, and each
 statement of the store as a function of it.
 */
module StoreModel {
  import opened Domain

  datatype Config = Config(cooldownSeconds: nat, resolveAfter: nat)

  /** The constructor's clamping of its two settings. */
  function Configure(cooldownSeconds: int, resolveAfter: int): (c: Config)
    ensures 0 <= cooldownSeconds ==> c.cooldownSeconds == cooldownSeconds
    ensures 1 <= resolveAfter ==> c.resolveAfter == resolveAfter
    ensures cooldownSeconds < 0 ==> c.cooldownSeconds == 0
    ensures resolveAfter < 1 ==> c.resolveAfter == 1
  {
    Config(if cooldownSeconds < 0 then 0 else cooldownSeconds, if resolveAfter < 1 then 1 else resolveAfter)
  }

  datatype Row = Row(
    minion: string,
    severity: Severity,
    lastEmittedSeverity: Option<Severity>,
    active: bool,
    firstSeen: real,
    lastSeen: real,
    lastEmitted: Option<real>,
    absent: nat,
    startsAt: int,
    payload: Option<Payload>,
    resolvedAt: Option<real>)

  type Rows = map<Key, Row>

  /** What `reconcile` reports about an incident that has been absent long enough. */
  datatype Record = Record(
    fingerprint: Key,
    minion: string,
    severity: Severity,
    startsAt: int,
    firstSeen: real,
    lastSeen: real,
    lastEmitted: Option<real>,
    absent: nat,
    payload: Option<Payload>)

  /** `order` and `chosen` together are an insertion-ordered dictionary. */
  datatype Selection = Selection(order: seq<Key>, chosen: map<Key, Anomaly>)

  /** One anomaly a fingerprint: the earliest among the most severe, placed where its fingerprint first occurred. */
  function PreferMoreSevere(anomalies: seq<Anomaly>): (s: Selection) {
    if anomalies == [] then
      Selection([], map[])
    else
      Prefer(PreferMoreSevere(anomalies[..|anomalies| - 1]), anomalies[|anomalies| - 1])
  }

  function Prefer(s: Selection, anomaly: Anomaly): Selection {
    var fp := anomaly.IdentityKey();
    if fp !in s.chosen then
      Selection(s.order + [fp], s.chosen[fp := anomaly])
    else if Rank(anomaly.severity) > Rank(s.chosen[fp].severity) then
      Selection(s.order, s.chosen[fp := anomaly])
    else
      s
  }

  /** The rows `reconcile` reads before it changes anything. */
  predicate IsActive(rows: Rows, minion: string, fp: Key) {
    fp in rows && rows[fp].active && rows[fp].minion == minion
  }

  function EmittedRank(row: Row): int {
    if row.lastEmittedSeverity.Some? then Rank(row.lastEmittedSeverity.value) else -1
  }

  predicate CooldownElapsed(c: Config, row: Row, now: real) {
    row.lastEmitted.None? || now - row.lastEmitted.value >= c.cooldownSeconds as real
  }

  predicate ShouldFire(c: Config, rows: Rows, minion: string, fp: Key, severity: Severity, now: real) {
    || !IsActive(rows, minion, fp)
    || Rank(severity) > EmittedRank(rows[fp])
    || CooldownElapsed(c, rows[fp], now)
  }

  function NewGeneration(minion: string, severity: Severity, now: real): Row {
    Row(minion, severity, None, true, now, now, None, 0, now.Floor, None, None)
  }

  /** The row of a fingerprint that the cycle contains. */
  function SeenRow(rows: Rows, minion: string, fp: Key, severity: Severity, now: real): Row {
    if IsActive(rows, minion, fp) then
      rows[fp].(severity := severity, lastSeen := now, absent := 0)
    else if fp in rows then
      NewGeneration(rows[fp].minion, severity, now) // the conflict clause leaves the minion column alone
    else
      NewGeneration(minion, severity, now)
  }

  /** The row of `fp` once its minion's cycle, which chose `chosen`, has been reconciled. */
  function RowAfter(rows: Rows, minion: string, chosen: map<Key, Anomaly>, now: real, fp: Key): Row
    requires fp in rows || fp in chosen
  {
    if fp in chosen then
      SeenRow(rows, minion, fp, chosen[fp].severity, now)
    else if IsActive(rows, minion, fp) then
      rows[fp].(absent := rows[fp].absent + 1)
    else
      rows[fp]
  }

  function Reconcile(rows: Rows, minion: string, anomalies: seq<Anomaly>, now: real): Rows {
    var chosen := PreferMoreSevere(anomalies).chosen;
    map fp | fp in rows.Keys + chosen.Keys :: RowAfter(rows, minion, chosen, now, fp)
  }

  function FiringOf(rows: Rows, minion: string, anomaly: Anomaly, fp: Key, now: real): Firing {
    if IsActive(rows, minion, fp) then
      Firing(anomaly, fp, rows[fp].startsAt, rows[fp].payload)
    else
      Firing(anomaly, fp, now.Floor, None)
  }

  /** The incidents to notify, in the order their fingerprints first occurred. */
  function FiringList(c: Config, rows: Rows, minion: string, order: seq<Key>, chosen: map<Key, Anomaly>, now: real)
    : (r: seq<Firing>)
    requires forall fp :: fp in order ==> fp in chosen
  {
    if order == [] then
      []
    else
      var rest := FiringList(c, rows, minion, order[..|order| - 1], chosen, now);
      var fp := order[|order| - 1];
      if ShouldFire(c, rows, minion, fp, chosen[fp].severity, now) then
        rest + [FiringOf(rows, minion, chosen[fp], fp, now)]
      else
        rest
  }

  predicate ReportsResolved(c: Config, rows: Rows, minion: string, chosen: map<Key, Anomaly>, fp: Key) {
    IsActive(rows, minion, fp) && fp !in chosen && rows[fp].absent + 1 >= c.resolveAfter
  }

  function RecordOf(row: Row, fp: Key): Record {
    Record(fp, row.minion, row.severity, row.startsAt, row.firstSeen, row.lastSeen, row.lastEmitted,
           row.absent + 1, row.payload)
  }

  /** The table fixes no order for the resolved records, so they form a set. */
  function ResolvedSet(c: Config, rows: Rows, minion: string, chosen: map<Key, Anomaly>): set<Record> {
    set fp | fp in rows && ReportsResolved(c, rows, minion, chosen, fp) :: RecordOf(rows[fp], fp)
  }

  /** A list that names every resolved record once. */
  ghost predicate ListsResolved(
    c: Config, rows: Rows, minion: string, chosen: map<Key, Anomaly>, records: seq<Record>)
  {
    && (forall i, j :: 0 <= i < j < |records| ==> records[i].fingerprint != records[j].fingerprint)
    && (forall r :: r in records <==> r in ResolvedSet(c, rows, minion, chosen))
  }

  function MarkEmitted(rows: Rows, fp: Key, payload: Payload, now: real, startsAt: Option<int>): Rows {
    if fp in rows && rows[fp].active && (startsAt.None? || rows[fp].startsAt == startsAt.value) then
      var delivered := payload.labels.severity;
      rows[fp := rows[fp].(
        lastEmitted := Some(now),
        lastEmittedSeverity := Some(if delivered == Other("") then rows[fp].severity else delivered),
        payload := Some(payload))]
    else
      rows
  }

  predicate IsActionable(rows: Rows, fp: Key, startsAt: int) {
    fp in rows && rows[fp].startsAt == startsAt && rows[fp].active && rows[fp].absent == 0
  }

  function MarkResolved(rows: Rows, fp: Key, now: real): Rows {
    if fp in rows && rows[fp].active then
      rows[fp := rows[fp].(active := false, resolvedAt := Some(now))]
    else
      rows
  }

  /** `reconcile`, one incident at a time. */
  lemma ReconcileAt(rows: Rows, minion: string, anomalies: seq<Anomaly>, now: real, fp: Key)
    ensures var chosen := PreferMoreSevere(anomalies).chosen;
            var rows' := Reconcile(rows, minion, anomalies, now);
            && (fp in rows' <==> fp in rows || fp in chosen)
            && (fp in rows' ==> rows'[fp] == RowAfter(rows, minion, chosen, now, fp))
  {
  }

  ghost predicate SameAt<V>(m: map<Key, V>, m': map<Key, V>, fp: Key) {
    (fp in m <==> fp in m') && (fp in m ==> m[fp] == m'[fp])
  }

  /**
   A row depends on no other row and on no other anomaly: two tables that agree
   at an incident agree there after cycles that chose the same anomaly for it.
   */
  lemma ReconcileIsLocal(
    rows: Rows, rows': Rows, minion: string, cycle: seq<Anomaly>, cycle': seq<Anomaly>, now: real, fp: Key)
    requires SameAt(rows, rows', fp)
    requires SameAt(PreferMoreSevere(cycle).chosen, PreferMoreSevere(cycle').chosen, fp)
    ensures SameAt(Reconcile(rows, minion, cycle, now), Reconcile(rows', minion, cycle', now), fp)
  {
    ReconcileAt(rows, minion, cycle, now, fp);
    ReconcileAt(rows', minion, cycle', now, fp);
  }

  /** The columns that only a new generation, an acknowledgement or a resolution changes. */
  predicate SameGeneration(row: Row, row': Row) {
    && row'.active == row.active && row'.startsAt == row.startsAt && row'.firstSeen == row.firstSeen
    && row'.lastEmitted == row.lastEmitted && row'.lastEmittedSeverity == row.lastEmittedSeverity
    && row'.payload == row.payload && row'.resolvedAt == row.resolvedAt
  }

  /**
   A cycle starts a new, unacknowledged generation exactly of the incidents that
   it contains and that were not active; all others stay in their generation,
   with their absence counted, cleared or left alone.
   */
  lemma ReconcileGenerations(rows: Rows, minion: string, anomalies: seq<Anomaly>, now: real, fp: Key)
    requires fp in Reconcile(rows, minion, anomalies, now)
    ensures var row' := Reconcile(rows, minion, anomalies, now)[fp];
            var contained := fp in PreferMoreSevere(anomalies).chosen;
            if contained && !IsActive(rows, minion, fp) then
              && row'.active && row'.startsAt == now.Floor && row'.absent == 0
              && row'.lastEmitted.None? && row'.payload.None?
            else
              && fp in rows && SameGeneration(rows[fp], row')
              && row'.absent == (if contained then 0 else if IsActive(rows, minion, fp) then rows[fp].absent + 1
                                 else rows[fp].absent)
  {
    ReconcileAt(rows, minion, anomalies, now, fp);
  }

  // The selection

  ghost predicate WellFormed(s: Selection) {
    && (forall i, j :: 0 <= i < j < |s.order| ==> s.order[i] != s.order[j])
    && (forall fp :: fp in s.order <==> fp in s.chosen)
    && (forall fp :: fp in s.chosen ==> s.chosen[fp].IdentityKey() == fp)
  }

  lemma {:induction false} SelectionWellFormed(anomalies: seq<Anomaly>)
    ensures WellFormed(PreferMoreSevere(anomalies))
    ensures forall a :: a in anomalies ==> a.IdentityKey() in PreferMoreSevere(anomalies).chosen
    ensures forall fp :: fp in PreferMoreSevere(anomalies).chosen ==>
              PreferMoreSevere(anomalies).chosen[fp] in anomalies
  {
    if anomalies != [] {
      var front, last := anomalies[..|anomalies| - 1], anomalies[|anomalies| - 1];
      assert anomalies == front + [last];
      SelectionWellFormed(front);
    }
  }

  /** The chosen anomaly is at least as severe as any other of its incident, and more severe than every earlier one. */
  lemma {:induction false} SelectionIsFirstMostSevere(anomalies: seq<Anomaly>, fp: Key) returns (at: nat)
    requires fp in PreferMoreSevere(anomalies).chosen
    ensures at < |anomalies| && anomalies[at] == PreferMoreSevere(anomalies).chosen[fp]
    ensures anomalies[at].IdentityKey() == fp
    ensures forall j :: 0 <= j < |anomalies| && anomalies[j].IdentityKey() == fp ==>
              Rank(anomalies[j].severity) <= Rank(anomalies[at].severity)
    ensures forall j :: 0 <= j < at && anomalies[j].IdentityKey() == fp ==>
              Rank(anomalies[j].severity) < Rank(anomalies[at].severity)
  {
    var n := |anomalies| - 1;
    var front, last := anomalies[..n], anomalies[n];
    var before := PreferMoreSevere(front);
    assert PreferMoreSevere(anomalies) == Prefer(before, last);
    assert forall j :: 0 <= j < n ==> anomalies[j] == front[j];
    if fp in before.chosen {
      at := SelectionIsFirstMostSevere(front, fp);
      if last.IdentityKey() == fp && Rank(last.severity) > Rank(front[at].severity) {
        at := n;
      }
    } else {
      at := n;
      forall j | 0 <= j < n ensures anomalies[j].IdentityKey() != fp {
        SelectionWellFormed(front);
        assert front[j] in front;
      }
    }
  }

  /** The reported order is the order in which the fingerprints first occurred. */
  lemma {:induction false} SelectionKeepsFirstOccurrence(anomalies: seq<Anomaly>, i: nat, j: nat) returns (a: nat)
    requires i < j < |PreferMoreSevere(anomalies).order|
    ensures a < |anomalies| && anomalies[a].IdentityKey() == PreferMoreSevere(anomalies).order[i]
    ensures forall b :: 0 <= b <= a ==> anomalies[b].IdentityKey() != PreferMoreSevere(anomalies).order[j]
  {
    var front, last := anomalies[..|anomalies| - 1], anomalies[|anomalies| - 1];
    assert anomalies == front + [last];
    SelectionWellFormed(front);
    var before := PreferMoreSevere(front);
    if j < |before.order| {
      a := SelectionKeepsFirstOccurrence(front, i, j);
    } else {
      var fp := before.order[i];
      assert fp in before.chosen;
      assert before.chosen[fp] in front;
      a :| 0 <= a < |front| && front[a] == before.chosen[fp];
      forall b | 0 <= b <= a ensures anomalies[b].IdentityKey() != last.IdentityKey() {
        assert front[b] in front;
      }
    }
  }

  /** The poll task hands `reconcile` its own minion's anomalies only. */
  lemma ChosenIsOfMinion(cycle: seq<Anomaly>, minion: string, fp: Key)
    ensures var chosen := PreferMoreSevere(OfMinion(cycle, minion)).chosen;
            fp in chosen ==> fp.minion == minion && chosen[fp].IdentityKey() == fp
  {
    SelectionWellFormed(OfMinion(cycle, minion));
  }

  /** The minion column agrees with the fingerprint, which that filter arranges. */
  ghost predicate Keyed(rows: Rows) {
    forall fp :: fp in rows ==> rows[fp].minion == fp.minion
  }

  /** The minion of a row never changes, not even when another minion's cycle revives it. */
  lemma MinionColumnStays(rows: Rows, minion: string, anomalies: seq<Anomaly>, now: real, fp: Key)
    requires fp in rows
    ensures var rows' := Reconcile(rows, minion, anomalies, now); fp in rows' && rows'[fp].minion == rows[fp].minion
  {
    ReconcileAt(rows, minion, anomalies, now, fp);
  }

  lemma ReconcileKeepsKeyed(rows: Rows, minion: string, cycle: seq<Anomaly>, now: real)
    requires Keyed(rows)
    ensures Keyed(Reconcile(rows, minion, OfMinion(cycle, minion), now))
  {
    var rows' := Reconcile(rows, minion, OfMinion(cycle, minion), now);
    forall fp | fp in rows' ensures rows'[fp].minion == fp.minion {
      ReconcileAt(rows, minion, OfMinion(cycle, minion), now, fp);
      ChosenIsOfMinion(cycle, minion, fp);
    }
  }

  // The firing list

  /** An incident is in the firing list exactly when the cycle contains it and it should fire. */
  lemma {:induction false} FiringListContents(
    c: Config, rows: Rows, minion: string, order: seq<Key>, chosen: map<Key, Anomaly>, now: real)
    requires forall fp :: fp in order ==> fp in chosen
    ensures forall f :: f in FiringList(c, rows, minion, order, chosen, now) <==>
              && f.fingerprint in order
              && ShouldFire(c, rows, minion, f.fingerprint, chosen[f.fingerprint].severity, now)
              && f == FiringOf(rows, minion, chosen[f.fingerprint], f.fingerprint, now)
  {
    if order != [] {
      FiringListContents(c, rows, minion, order[..|order| - 1], chosen, now);
      assert order == order[..|order| - 1] + [order[|order| - 1]];
    }
  }

  /** The row, if it is active, was acknowledged a cooldown ago, less severely, or never. */
  predicate DueAgain(cooldownSeconds: nat, row: Row, severity: Severity, now: real) {
    || row.lastEmitted.None?
    || now - row.lastEmitted.value >= cooldownSeconds as real
    || (if row.lastEmittedSeverity.Some? then MoreSevere(severity, row.lastEmittedSeverity.value) else !severity.Other?)
  }

  /**
   What a cycle reports as firing, on the columns of the table it reads: of the
   incidents it contains exactly those that were not active, and the active ones
   that are due again, with the start and payload of the generation they belong to.
   */
  lemma FiresExactlyWhen(c: Config, rows: Rows, minion: string, anomalies: seq<Anomaly>, now: real, f: Firing)
    ensures f in CycleFiring(c, rows, minion, anomalies, now) <==>
            && var chosen, fp := PreferMoreSevere(anomalies).chosen, f.fingerprint;
            && fp in chosen && f.anomaly == chosen[fp]
            && if fp in rows && rows[fp].active && rows[fp].minion == minion then
                 && DueAgain(c.cooldownSeconds, rows[fp], chosen[fp].severity, now)
                 && f.startsAt == rows[fp].startsAt && f.previous == rows[fp].payload
               else
                 f.startsAt == now.Floor && f.previous == None
  {
    var s := PreferMoreSevere(anomalies);
    SelectionWellFormed(anomalies);
    FiringListContents(c, rows, minion, s.order, s.chosen, now);
    if f.fingerprint in s.chosen && f.fingerprint in rows && rows[f.fingerprint].lastEmittedSeverity.Some? {
      RanksMean(s.chosen[f.fingerprint].severity, rows[f.fingerprint].lastEmittedSeverity.value);
    }
  }

  /** A resolved record tells what the table holds of the incident once the cycle is done. */
  lemma RecordDescribesRow(c: Config, rows: Rows, minion: string, anomalies: seq<Anomaly>, now: real, r: Record)
    requires r in ResolvedSet(c, rows, minion, PreferMoreSevere(anomalies).chosen)
    ensures var rows' := Reconcile(rows, minion, anomalies, now);
            && r.fingerprint in rows' && rows'[r.fingerprint].active
            && var row := rows'[r.fingerprint];
               && r.minion == row.minion == minion && r.severity == row.severity && r.startsAt == row.startsAt
               && r.firstSeen == row.firstSeen && r.lastSeen == row.lastSeen && r.lastEmitted == row.lastEmitted
               && r.absent == row.absent && r.payload == row.payload && r.absent >= c.resolveAfter
  {
    ReconcileAt(rows, minion, anomalies, now, r.fingerprint);
  }

  ghost predicate DistinctFirings(l: seq<Firing>) {
    forall i, j :: 0 <= i < j < |l| ==> l[i].fingerprint != l[j].fingerprint
  }

  lemma {:induction false} FiringListDistinct(
    c: Config, rows: Rows, minion: string, order: seq<Key>, chosen: map<Key, Anomaly>, now: real)
    requires forall fp :: fp in order ==> fp in chosen
    requires forall i, j :: 0 <= i < j < |order| ==> order[i] != order[j]
    ensures DistinctFirings(FiringList(c, rows, minion, order, chosen, now))
  {
    if order != [] {
      var front := order[..|order| - 1];
      FiringListDistinct(c, rows, minion, front, chosen, now);
      FiringListContents(c, rows, minion, front, chosen, now);
      var l := FiringList(c, rows, minion, front, chosen, now);
      forall i | 0 <= i < |l| ensures l[i].fingerprint != order[|order| - 1] {
        assert l[i] in l;
        var at :| 0 <= at < |front| && front[at] == l[i].fingerprint;
      }
      var fp := order[|order| - 1];
      var full := FiringList(c, rows, minion, order, chosen, now);
      assert full == l || full == l + [FiringOf(rows, minion, chosen[fp], fp, now)];
    }
  }

  /** Firings come in the order of their incidents. */
  lemma {:induction false} FiringListInOrder(
    c: Config, rows: Rows, minion: string, order: seq<Key>, chosen: map<Key, Anomaly>, now: real, i: nat, j: nat)
    returns (x: nat, y: nat)
    requires forall fp :: fp in order ==> fp in chosen
    requires i < j < |FiringList(c, rows, minion, order, chosen, now)|
    ensures var l := FiringList(c, rows, minion, order, chosen, now);
            x < y < |order| && order[x] == l[i].fingerprint && order[y] == l[j].fingerprint
  {
    var front, last := order[..|order| - 1], order[|order| - 1];
    var l, rest := FiringList(c, rows, minion, order, chosen, now), FiringList(c, rows, minion, front, chosen, now);
    if j < |rest| {
      x, y := FiringListInOrder(c, rows, minion, front, chosen, now, i, j);
    } else {
      FiringListContents(c, rows, minion, front, chosen, now);
      assert l[i] == rest[i] && rest[i] in rest;
      x :| 0 <= x < |front| && front[x] == l[i].fingerprint;
      y := |order| - 1;
    }
  }

  /** The firing list of one cycle, as `reconcile` returns it. */
  function CycleFiring(c: Config, rows: Rows, minion: string, anomalies: seq<Anomaly>, now: real): seq<Firing> {
    var s := PreferMoreSevere(anomalies);
    SelectionWellFormed(anomalies);
    FiringList(c, rows, minion, s.order, s.chosen, now)
  }

  /** What a cycle reports as firing is actionable in the table it leaves, and carries that table's payload. */
  lemma FiringIsActionable(c: Config, rows: Rows, minion: string, anomalies: seq<Anomaly>, now: real, f: Firing)
    requires f in CycleFiring(c, rows, minion, anomalies, now)
    ensures var rows' := Reconcile(rows, minion, anomalies, now);
            && IsActionable(rows', f.fingerprint, f.startsAt)
            && rows'[f.fingerprint].payload == f.previous
            && rows'[f.fingerprint].severity == f.anomaly.severity
            && f.anomaly.IdentityKey() == f.fingerprint && f.anomaly in anomalies
  {
    var s := PreferMoreSevere(anomalies);
    SelectionWellFormed(anomalies);
    FiringListContents(c, rows, minion, s.order, s.chosen, now);
    ReconcileAt(rows, minion, anomalies, now, f.fingerprint);
  }
}
