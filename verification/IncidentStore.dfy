/** The incident store as the program runs it: row by row, in loops over a table it updates in place. */
module IncidentStoreClass {
  import opened Domain
  import opened StoreModel

  /** One anomaly a fingerprint, in one pass over the cycle. */
  method SelectMostSevere(anomalies: seq<Anomaly>) returns (order: seq<Key>, selected: map<Key, Anomaly>)
    ensures Selection(order, selected) == PreferMoreSevere(anomalies)
  {
    order, selected := [], map[];
    for i := 0 to |anomalies|
      invariant Selection(order, selected) == PreferMoreSevere(anomalies[..i])
    {
      var anomaly := anomalies[i];
      var fp := anomaly.IdentityKey();
      assert anomalies[..i + 1][..i] == anomalies[..i];
      var previous := if fp in selected then Rank(selected[fp].severity) else -1;
      if fp !in selected || Rank(anomaly.severity) > previous {
        order := if fp in selected then order else order + [fp];
        selected := selected[fp := anomaly];
      }
    }
    assert anomalies[..|anomalies|] == anomalies;
  }

  /** The rows that one `reconcile` reads. */
  function ActiveRows(rows: Rows, minion: string): Rows {
    map fp | fp in rows && IsActive(rows, minion, fp) :: rows[fp]
  }

  /** The incidents in `done` have their new row and all others their old one. */
  ghost predicate Updated(
    before: Rows, rows: Rows, done: set<Key>, minion: string, current: map<Key, Anomaly>, now: real)
  {
    && done <= before.Keys + current.Keys
    && rows.Keys == before.Keys + done
    && (forall fp :: fp in rows ==>
          rows[fp] == if fp in done then RowAfter(before, minion, current, now, fp) else before[fp])
  }

  /** The resolved records of the active incidents that are not `left` to do, each once. */
  ghost predicate Lists(
    c: Config, before: Rows, minion: string, current: map<Key, Anomaly>, resolved: seq<Record>, left: set<Key>)
  {
    && (forall i, j :: 0 <= i < j < |resolved| ==> resolved[i].fingerprint != resolved[j].fingerprint)
    && (forall r :: r in resolved <==> r in ResolvedSet(c, before, minion, current) && r.fingerprint !in left)
  }

  ghost function Members(order: seq<Key>): set<Key> {
    set fp | fp in order
  }

  lemma NextMember(order: seq<Key>, i: nat)
    requires i < |order| && forall a, b :: 0 <= a < b < |order| ==> order[a] != order[b]
    ensures order[i] !in Members(order[..i]) && Members(order[..i + 1]) == Members(order[..i]) + {order[i]}
    ensures order[..i + 1][..i] == order[..i] && order[..i + 1][i] == order[i]
  {
    assert order[..i + 1] == order[..i] + [order[i]];
  }

  lemma AllMembers(order: seq<Key>, current: map<Key, Anomaly>)
    requires WellFormed(Selection(order, current))
    ensures order[..|order|] == order && Members(order) == current.Keys && Members([]) == {}
  {
  }

  lemma UpdatedOneMore(
    before: Rows, rows: Rows, done: set<Key>, minion: string, current: map<Key, Anomaly>, now: real, fp: Key)
    requires Updated(before, rows, done, minion, current, now) && (fp in before || fp in current)
    ensures Updated(before, rows[fp := RowAfter(before, minion, current, now, fp)], done + {fp}, minion, current, now)
  {
  }

  lemma ListsOneMore(
    c: Config, before: Rows, minion: string, current: map<Key, Anomaly>, resolved: seq<Record>, left: set<Key>, fp: Key)
    requires Lists(c, before, minion, current, resolved, left) && fp in left && fp in before
    ensures Lists(c, before, minion, current,
                  if ReportsResolved(c, before, minion, current, fp)
                  then resolved + [RecordOf(before[fp], fp)] else resolved,
                  left - {fp})
  {
    forall i | 0 <= i < |resolved| ensures resolved[i].fingerprint != fp {
      assert resolved[i] in resolved;
    }
    forall r | r in ResolvedSet(c, before, minion, current) && r.fingerprint == fp
      ensures ReportsResolved(c, before, minion, current, fp) && r == RecordOf(before[fp], fp)
    {
    }
  }

  lemma FiringOneMore(
    c: Config, before: Rows, minion: string, order: seq<Key>, current: map<Key, Anomaly>, now: real, i: nat)
    requires i < |order| && forall fp :: fp in order ==> fp in current
    ensures FiringList(c, before, minion, order[..i + 1], current, now)
         == if ShouldFire(c, before, minion, order[i], current[order[i]].severity, now)
            then FiringList(c, before, minion, order[..i], current, now)
                 + [FiringOf(before, minion, current[order[i]], order[i], now)]
            else FiringList(c, before, minion, order[..i], current, now)
  {
    assert order[..i + 1][..i] == order[..i];
  }

  /** Once both loops are done, the table is the reconciled one and the list is complete. */
  lemma AllCounted(
    c: Config, before: Rows, rows: Rows, minion: string, current: map<Key, Anomaly>, now: real, resolved: seq<Record>)
    requires Updated(before, rows, current.Keys + ActiveRows(before, minion).Keys, minion, current, now)
    requires Lists(c, before, minion, current, resolved, {})
    ensures rows == map fp | fp in before.Keys + current.Keys :: RowAfter(before, minion, current, now, fp)
    ensures ListsResolved(c, before, minion, current, resolved)
  {
  }

  lemma OneLess(all: set<Key>, done: set<Key>, left: set<Key>, fp: Key)
    requires fp in left && left <= all
    ensures done + (all - (left - {fp})) == done + (all - left) + {fp}
  {
  }

  class IncidentStore {
    const config: Config
    var rows: Rows

    /** Opens the table as it is found; a table that did not exist is empty. */
    constructor (existing: Rows, cooldownSeconds: int, resolveAfterHealthyCycles: int)
      ensures config == Configure(cooldownSeconds, resolveAfterHealthyCycles) && rows == existing
    {
      config := Configure(cooldownSeconds, resolveAfterHealthyCycles);
      rows := existing;
    }

    /**
     Writes the row of one incident the cycle contains, and reports whether it
     should fire. `active` holds the rows as they were when the cycle was read.
     */
    method Observe(active: Rows, minion: string, fp: Key, anomaly: Anomaly, now: real, ghost before: Rows)
      returns (firing: Option<Firing>)
      requires active == ActiveRows(before, minion)
      requires (fp in rows <==> fp in before) && (fp in rows ==> rows[fp] == before[fp])
      modifies this`rows
      ensures rows == old(rows)[fp := SeenRow(before, minion, fp, anomaly.severity, now)]
      ensures firing == if ShouldFire(config, before, minion, fp, anomaly.severity, now)
                        then Some(FiringOf(before, minion, anomaly, fp, now)) else None
    {
      if fp !in active {
        var startsAt := now.Floor;
        if fp in rows {
          rows := rows[fp := rows[fp].(
            severity := anomaly.severity, lastEmittedSeverity := None, active := true, firstSeen := now,
            lastSeen := now, lastEmitted := None, absent := 0, startsAt := startsAt, payload := None,
            resolvedAt := None)];
        } else {
          rows := rows[fp := Row(minion, anomaly.severity, None, true, now, now, None, 0, startsAt, None, None)];
        }
        return Some(Firing(anomaly, fp, startsAt, None));
      }
      var row := active[fp];
      var escalated := Rank(anomaly.severity) > EmittedRank(row);
      var cooldownElapsed := row.lastEmitted.None? || now - row.lastEmitted.value >= config.cooldownSeconds as real;
      rows := rows[fp := rows[fp].(severity := anomaly.severity, lastSeen := now, absent := 0)];
      if escalated || cooldownElapsed {
        return Some(Firing(anomaly, fp, row.startsAt, row.payload));
      }
      return None;
    }

    method Reconcile(minion: string, anomalies: seq<Anomaly>, now: real)
      returns (firing: seq<Firing>, resolved: seq<Record>)
      modifies this`rows
      ensures rows == StoreModel.Reconcile(old(rows), minion, anomalies, now)
      ensures firing == CycleFiring(config, old(rows), minion, anomalies, now)
      ensures ListsResolved(config, old(rows), minion, PreferMoreSevere(anomalies).chosen, resolved)
    {
      var order, current := SelectMostSevere(anomalies);
      SelectionWellFormed(anomalies);
      var active := map fp | fp in rows && IsActive(rows, minion, fp) :: rows[fp];
      firing := ObserveAll(active, minion, order, current, now);
      resolved := CountAbsences(active, minion, current, now, old(rows));
    }

    /** The first loop: every incident that the cycle contains, in order. */
    method ObserveAll(active: Rows, minion: string, order: seq<Key>, current: map<Key, Anomaly>, now: real)
      returns (firing: seq<Firing>)
      requires active == ActiveRows(rows, minion) && WellFormed(Selection(order, current))
      modifies this`rows
      ensures Updated(old(rows), rows, current.Keys, minion, current, now)
      ensures firing == FiringList(config, old(rows), minion, order, current, now)
    {
      ghost var before := rows;
      AllMembers(order, current);
      firing := [];
      for i := 0 to |order|
        invariant Updated(before, rows, Members(order[..i]), minion, current, now)
        invariant firing == FiringList(config, before, minion, order[..i], current, now)
      {
        var fp := order[i];
        NextMember(order, i);
        UpdatedOneMore(before, rows, Members(order[..i]), minion, current, now, fp);
        FiringOneMore(config, before, minion, order, current, now, i);
        var report := Observe(active, minion, fp, current[fp], now, before);
        if report.Some? {
          firing := firing + [report.value];
        }
      }
    }

    method CountAbsence(
      active: Rows, minion: string, fp: Key, current: map<Key, Anomaly>, now: real, ghost before: Rows)
      returns (resolved: Option<Record>)
      requires active == ActiveRows(before, minion) && fp in active && fp in rows
      requires rows[fp] == if fp in current then RowAfter(before, minion, current, now, fp) else before[fp]
      modifies this`rows
      ensures rows == old(rows)[fp := RowAfter(before, minion, current, now, fp)]
      ensures resolved
           == if ReportsResolved(config, before, minion, current, fp) then Some(RecordOf(before[fp], fp)) else None
    {
      if fp in current {
        return None;
      }
      var row := active[fp];
      var absent := row.absent + 1;
      rows := rows[fp := rows[fp].(absent := absent)];
      return if absent >= config.resolveAfter then Some(RecordOf(row, fp)) else None;
    }

    /** The second loop: every active incident that the cycle does not contain has been absent once more. */
    method CountAbsences(active: Rows, minion: string, current: map<Key, Anomaly>, now: real, ghost before: Rows)
      returns (resolved: seq<Record>)
      requires active == ActiveRows(before, minion)
      requires Updated(before, rows, current.Keys, minion, current, now)
      modifies this`rows
      ensures rows == map fp | fp in before.Keys + current.Keys :: RowAfter(before, minion, current, now, fp)
      ensures ListsResolved(config, before, minion, current, resolved)
    {
      resolved := [];
      var left := active.Keys;
      while left != {}
        invariant left <= active.Keys
        invariant Updated(before, rows, current.Keys + (active.Keys - left), minion, current, now)
        invariant Lists(config, before, minion, current, resolved, left)
        decreases left
      {
        var fp :| fp in left;
        ghost var done := current.Keys + (active.Keys - left);
        UpdatedOneMore(before, rows, done, minion, current, now, fp);
        ListsOneMore(config, before, minion, current, resolved, left, fp);
        OneLess(active.Keys, current.Keys, left, fp);
        var report := CountAbsence(active, minion, fp, current, now, before);
        if report.Some? {
          resolved := resolved + [report.value];
        }
        left := left - {fp};
      }
      assert active.Keys - left == active.Keys;
      AllCounted(config, before, rows, minion, current, now, resolved);
    }

    method MarkEmitted(fp: Key, payload: Payload, now: real, startsAt: Option<int>)
      modifies this`rows
      ensures rows == StoreModel.MarkEmitted(old(rows), fp, payload, now, startsAt)
    {
      var delivered := payload.labels.severity;
      if fp in rows && rows[fp].active {
        if startsAt.None? || rows[fp].startsAt == startsAt.value {
          var severity := if delivered == Other("") then rows[fp].severity else delivered;
          rows := rows[fp := rows[fp].(
            lastEmitted := Some(now), lastEmittedSeverity := Some(severity), payload := Some(payload))];
        }
      }
    }

    method IsActionable(fp: Key, startsAt: int) returns (actionable: bool)
      ensures actionable == StoreModel.IsActionable(rows, fp, startsAt)
    {
      if fp !in rows {
        return false;
      }
      var row := rows[fp];
      return row.startsAt == startsAt && row.active && row.absent == 0;
    }

    method MarkResolved(fp: Key, now: real)
      modifies this`rows
      ensures rows == StoreModel.MarkResolved(old(rows), fp, now)
    {
      if fp in rows && rows[fp].active {
        rows := rows[fp := rows[fp].(active := false, resolvedAt := Some(now))];
      }
    }
  }
}
