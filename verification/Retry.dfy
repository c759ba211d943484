/**
 Nothing unacknowledged is lost. Whatever happens to a job, only a successful
 delivery advances the notification columns, so the next reconcile that contains
 the incident reports it again.
 */
module Retry {
  import opened Domain
  import opened Protocol
  import opened Coherence
  import P = WorkerPool
  import S = StoreModel

  /** The one event that acknowledges an incident. */
  predicate Acknowledges(s: State, e: Event, fp: Key) {
    e.Delivered? && At(s, e.w, P.DeliveryReplied(true)) && ItemOf(s, e.w).payload.firing.fingerprint == fp
  }

  ghost predicate QuietRun(c: Settings, s: State, events: seq<Event>, fp: Key)
    decreases |events|
  {
    events == [] ||
    (Allowed(c, s, events[0]) && !Acknowledges(s, events[0], fp)
     && QuietRun(c, Apply(c, s, events[0]), events[1..], fp))
  }

  /** Still owed a notification at severity rank `rank`. */
  predicate Owed(rows: S.Rows, fp: Key, rank: int) {
    fp !in rows || !rows[fp].active || rows[fp].lastEmitted.None? || S.EmittedRank(rows[fp]) < rank
  }

  /** The columns that an acknowledgement writes. */
  predicate SameNotification(row: S.Row, row': S.Row) {
    row'.lastEmitted == row.lastEmitted && row'.lastEmittedSeverity == row.lastEmittedSeverity
    && row'.payload == row.payload && row'.startsAt == row.startsAt
  }

  /** The events that write rows at all, seen from one incident. */
  lemma RowsChangeOnlyIn(c: Settings, s: State, e: Event)
    requires Allowed(c, s, e) && !e.Reconcile? && !e.CancelNext? && !e.FinishResolution? && !e.Delivered?
    ensures Apply(c, s, e).rows == s.rows
  {
  }

  lemma ReconcileKeepsNotification(rows: S.Rows, minion: string, cycle: seq<Anomaly>, now: real, fp: Key)
    requires RowsKeyed(rows) && fp in rows && rows[fp].active
    ensures var rows' := S.Reconcile(rows, minion, OfMinion(cycle, minion), now);
            fp in rows' && SameNotification(rows[fp], rows'[fp])
  {
    S.ReconcileAt(rows, minion, OfMinion(cycle, minion), now, fp);
    S.ChosenIsOfMinion(cycle, minion, fp);
  }

  /** Stale, obsolete, failed, timed out, evicted, rejected, cancelled or undelivered: the row says nothing of it. */
  lemma UnacknowledgedEventKeepsNotification(c: Settings, s: State, e: Event, fp: Key)
    requires RowsKeyed(s.rows) && Allowed(c, s, e) && !Acknowledges(s, e, fp)
    requires fp in s.rows && s.rows[fp].active
    ensures fp in Apply(c, s, e).rows && SameNotification(s.rows[fp], Apply(c, s, e).rows[fp])
  {
    if e.Reconcile? {
      ReconcileKeepsNotification(s.rows, e.minion, e.cycle, e.now, fp);
    } else if !e.CancelNext? && !e.FinishResolution? && !e.Delivered? {
      RowsChangeOnlyIn(c, s, e);
    }
  }

  /** What is owed stays owed until it is acknowledged. */
  lemma OwedStaysOwed(c: Settings, s: State, e: Event, fp: Key, rank: int)
    requires Allowed(c, s, e) && !Acknowledges(s, e, fp) && Owed(s.rows, fp, rank)
    ensures Owed(Apply(c, s, e).rows, fp, rank)
  {
    match e
    case Reconcile(minion, cycle, now, _) => S.ReconcileAt(s.rows, minion, OfMinion(cycle, minion), now, fp);
    case CancelNext(_, _) =>
    case FinishResolution(_, _) =>
    case Delivered(_, _) =>
    case _ => RowsChangeOnlyIn(c, s, e);
  }

  lemma {:induction false} OwedThroughRun(c: Settings, s: State, events: seq<Event>, fp: Key, rank: int)
    requires QuietRun(c, s, events, fp) && Owed(s.rows, fp, rank)
    ensures IsRun(c, s, events) && Owed(After(c, s, events).rows, fp, rank)
    decreases |events|
  {
    if events != [] {
      OwedStaysOwed(c, s, events[0], fp, rank);
      OwedThroughRun(c, Apply(c, s, events[0]), events[1..], fp, rank);
    }
  }

  /** A reconcile that contains an incident at a rank it is owed hands it to the poll task for queueing. */
  lemma OwedFires(c: Settings, s: State, e: Event, a: Anomaly)
    requires e.Reconcile? && Allowed(c, s, e)
    requires a in e.cycle && a.minion == e.minion && Owed(s.rows, a.IdentityKey(), Rank(a.severity))
    ensures exists f :: f in Apply(c, s, e).tasks[e.minion].firing && f.fingerprint == a.IdentityKey()
                        && Rank(f.anomaly.severity) >= Rank(a.severity)
  {
    var detected := OfMinion(e.cycle, e.minion);
    var selection := S.PreferMoreSevere(detected);
    var fp := a.IdentityKey();
    S.SelectionWellFormed(detected);
    assert a in detected;
    var at := S.SelectionIsFirstMostSevere(detected, fp);
    var j :| 0 <= j < |detected| && detected[j] == a;
    assert Rank(detected[j].severity) <= Rank(selection.chosen[fp].severity);
    S.FiringListContents(c.store, s.rows, e.minion, selection.order, selection.chosen, e.now);
    assert S.ShouldFire(c.store, s.rows, e.minion, fp, selection.chosen[fp].severity, e.now);
    var f := S.FiringOf(s.rows, e.minion, selection.chosen[fp], fp, e.now);
    assert f in Apply(c, s, e).tasks[e.minion].firing;
  }

  /**
   After any run that does not acknowledge the incident, from a state in which
   its notification is owed, every reconcile that contains it reports it:
   never-acknowledged incidents at any rank, acknowledged ones once they escalate.
   */
  lemma NothingUnacknowledgedIsLost(c: Settings, s: State, events: seq<Event>, e: Event, a: Anomaly)
    requires Owed(s.rows, a.IdentityKey(), Rank(a.severity))
    requires QuietRun(c, s, events, a.IdentityKey()) && IsRun(c, s, events)
    requires e.Reconcile? && Allowed(c, After(c, s, events), e) && a in e.cycle && a.minion == e.minion
    ensures exists f :: f in Apply(c, After(c, s, events), e).tasks[e.minion].firing && f.fingerprint == a.IdentityKey()
                        && Rank(f.anomaly.severity) >= Rank(a.severity)
  {
    OwedThroughRun(c, s, events, a.IdentityKey(), Rank(a.severity));
    OwedFires(c, After(c, s, events), e, a);
  }

  // The cooldown

  /** Not acknowledged after `t`, as far as the present generation goes. */
  predicate NotSince(rows: S.Rows, fp: Key, t: real) {
    fp !in rows || !rows[fp].active || rows[fp].lastEmitted.None? || rows[fp].lastEmitted.value <= t
  }

  lemma StaysNotSince(c: Settings, s: State, e: Event, fp: Key, t: real)
    requires Allowed(c, s, e) && !Acknowledges(s, e, fp) && NotSince(s.rows, fp, t)
    ensures NotSince(Apply(c, s, e).rows, fp, t)
  {
    match e
    case Reconcile(minion, cycle, now, _) => S.ReconcileAt(s.rows, minion, OfMinion(cycle, minion), now, fp);
    case CancelNext(_, _) =>
    case FinishResolution(_, _) =>
    case Delivered(_, _) =>
    case _ => RowsChangeOnlyIn(c, s, e);
  }

  lemma {:induction false} NotSinceThroughRun(c: Settings, s: State, events: seq<Event>, fp: Key, t: real)
    requires QuietRun(c, s, events, fp) && NotSince(s.rows, fp, t)
    ensures IsRun(c, s, events) && NotSince(After(c, s, events).rows, fp, t)
    decreases |events|
  {
    if events != [] {
      StaysNotSince(c, s, events[0], fp, t);
      NotSinceThroughRun(c, Apply(c, s, events[0]), events[1..], fp, t);
    }
  }

  lemma CooldownFires(c: Settings, s: State, e: Event, a: Anomaly, t: real)
    requires e.Reconcile? && Allowed(c, s, e) && a in e.cycle && a.minion == e.minion
    requires NotSince(s.rows, a.IdentityKey(), t) && e.now - t >= c.store.cooldownSeconds as real
    ensures exists f :: f in Apply(c, s, e).tasks[e.minion].firing && f.fingerprint == a.IdentityKey()
                        && Rank(f.anomaly.severity) >= Rank(a.severity)
  {
    var detected := OfMinion(e.cycle, e.minion);
    var selection := S.PreferMoreSevere(detected);
    var fp := a.IdentityKey();
    S.SelectionWellFormed(detected);
    assert a in detected;
    var at := S.SelectionIsFirstMostSevere(detected, fp);
    var j :| 0 <= j < |detected| && detected[j] == a;
    assert Rank(detected[j].severity) <= Rank(selection.chosen[fp].severity);
    var f := S.FiringOf(s.rows, e.minion, selection.chosen[fp], fp, e.now);
    S.FiresExactlyWhen(c.store, s.rows, e.minion, detected, e.now, f);
    assert f in Apply(c, s, e).tasks[e.minion].firing;
  }

  /**
   An acknowledged incident is repeated: after any run without a further
   acknowledgement, every reconcile a cooldown or more after the last one that
   contains the incident reports it, at any severity.
   */
  lemma RepeatedAfterCooldown(c: Settings, s: State, events: seq<Event>, e: Event, a: Anomaly, t: real)
    requires NotSince(s.rows, a.IdentityKey(), t)
    requires QuietRun(c, s, events, a.IdentityKey()) && IsRun(c, s, events)
    requires e.Reconcile? && Allowed(c, After(c, s, events), e) && a in e.cycle && a.minion == e.minion
    requires e.now - t >= c.store.cooldownSeconds as real
    ensures exists f :: f in Apply(c, After(c, s, events), e).tasks[e.minion].firing && f.fingerprint == a.IdentityKey()
                        && Rank(f.anomaly.severity) >= Rank(a.severity)
  {
    NotSinceThroughRun(c, s, events, a.IdentityKey(), t);
    CooldownFires(c, After(c, s, events), e, a, t);
  }
}
