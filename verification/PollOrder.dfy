/**
 Poll-order independence: the minions of one cycle are reconciled in whatever
 order the event loop picks, and it makes no difference to the store.
 */
module PollOrder {
  import opened Domain
  import opened StoreModel

  /** One polling cycle; each minion has its own clock reading. */
  datatype Poll = Poll(anomalies: seq<Anomaly>, clock: map<string, real>)

  function Chosen(p: Poll, minion: string): map<Key, Anomaly> {
    PreferMoreSevere(OfMinion(p.anomalies, minion)).chosen
  }

  function Now(p: Poll, minion: string): real {
    if minion in p.clock then p.clock[minion] else 0.0
  }

  function One(rows: Rows, p: Poll, minion: string): Rows {
    Reconcile(rows, minion, OfMinion(p.anomalies, minion), Now(p, minion))
  }

  /** Reconciles the minions one after the other. */
  function InOrder(rows: Rows, p: Poll, minions: seq<string>): Rows {
    if minions == [] then rows else One(InOrder(rows, p, minions[..|minions| - 1]), p, minions[|minions| - 1])
  }

  /** What one minion's reconcile reports. */
  datatype Report = Report(firing: seq<Firing>, resolved: set<Record>)

  function ReportOf(c: Config, rows: Rows, p: Poll, minion: string): Report {
    Report(CycleFiring(c, rows, minion, OfMinion(p.anomalies, minion), Now(p, minion)),
           ResolvedSet(c, rows, minion, Chosen(p, minion)))
  }

  function Reports(c: Config, rows: Rows, p: Poll, minions: seq<string>): map<string, Report> {
    if minions == [] then
      map[]
    else
      var front, last := minions[..|minions| - 1], minions[|minions| - 1];
      Reports(c, rows, p, front)[last := ReportOf(c, InOrder(rows, p, front), p, last)]
  }

  ghost predicate NoRepeats(minions: seq<string>) {
    forall i, j :: 0 <= i < j < |minions| ==> minions[i] != minions[j]
  }

  /** The two tables agree about the incidents of a minion. */
  ghost predicate AgreeOn(rows: Rows, rows': Rows, minion: string) {
    forall fp :: BelongsTo(fp, minion) ==> (fp in rows <==> fp in rows') && (fp in rows ==> rows[fp] == rows'[fp])
  }

  predicate BelongsTo(fp: Key, minion: string) {
    fp.minion == minion
  }

  /** A reconcile touches its own minion's incidents only, and reads no others. */
  lemma OneIsLocal(rows: Rows, p: Poll, minion: string, fp: Key)
    requires Keyed(rows)
    ensures Keyed(One(rows, p, minion))
    ensures fp.minion != minion ==> SameAt(One(rows, p, minion), rows, fp)
  {
    ReconcileKeepsKeyed(rows, minion, p.anomalies, Now(p, minion));
    ReconcileAt(rows, minion, OfMinion(p.anomalies, minion), Now(p, minion), fp);
    ChosenIsOfMinion(p.anomalies, minion, fp);
  }

  lemma OneDependsOnItsMinion(rows: Rows, rows': Rows, p: Poll, minion: string)
    requires Keyed(rows) && Keyed(rows') && AgreeOn(rows, rows', minion)
    ensures AgreeOn(One(rows, p, minion), One(rows', p, minion), minion)
  {
    forall fp | BelongsTo(fp, minion)
      ensures fp in One(rows, p, minion) <==> fp in One(rows', p, minion)
      ensures fp in One(rows, p, minion) ==> One(rows, p, minion)[fp] == One(rows', p, minion)[fp]
    {
      ReconcileAt(rows, minion, OfMinion(p.anomalies, minion), Now(p, minion), fp);
      ReconcileAt(rows', minion, OfMinion(p.anomalies, minion), Now(p, minion), fp);
    }
  }

  lemma {:induction false} FiringDependsOnItsMinion(
    c: Config, rows: Rows, rows': Rows, minion: string, order: seq<Key>, chosen: map<Key, Anomaly>, now: real)
    requires forall fp :: fp in order ==> fp in chosen && BelongsTo(fp, minion)
    requires AgreeOn(rows, rows', minion)
    ensures FiringList(c, rows, minion, order, chosen, now) == FiringList(c, rows', minion, order, chosen, now)
  {
    if order != [] {
      FiringDependsOnItsMinion(c, rows, rows', minion, order[..|order| - 1], chosen, now);
      assert BelongsTo(order[|order| - 1], minion);
    }
  }

  lemma ReportDependsOnItsMinion(c: Config, rows: Rows, rows': Rows, p: Poll, minion: string)
    requires Keyed(rows) && Keyed(rows') && AgreeOn(rows, rows', minion)
    ensures ReportOf(c, rows, p, minion) == ReportOf(c, rows', p, minion)
  {
    var s := PreferMoreSevere(OfMinion(p.anomalies, minion));
    SelectionWellFormed(OfMinion(p.anomalies, minion));
    forall fp | fp in s.order ensures fp in s.chosen && BelongsTo(fp, minion) {
      ChosenIsOfMinion(p.anomalies, minion, fp);
    }
    FiringDependsOnItsMinion(c, rows, rows', minion, s.order, s.chosen, Now(p, minion));
    SameResolved(c, rows, rows', minion, s.chosen);
    SameResolved(c, rows', rows, minion, s.chosen);
  }

  lemma SameResolved(c: Config, rows: Rows, rows': Rows, minion: string, chosen: map<Key, Anomaly>)
    requires Keyed(rows) && Keyed(rows') && AgreeOn(rows, rows', minion)
    ensures ResolvedSet(c, rows, minion, chosen) <= ResolvedSet(c, rows', minion, chosen)
  {
    forall r | r in ResolvedSet(c, rows, minion, chosen) ensures r in ResolvedSet(c, rows', minion, chosen) {
      var fp := r.fingerprint;
      assert BelongsTo(fp, minion);
      assert ReportsResolved(c, rows', minion, chosen, fp);
    }
  }

  lemma {:induction false} InOrderKeyed(rows: Rows, p: Poll, minions: seq<string>)
    requires Keyed(rows)
    ensures Keyed(InOrder(rows, p, minions))
  {
    if minions != [] {
      InOrderKeyed(rows, p, minions[..|minions| - 1]);
      ReconcileKeepsKeyed(InOrder(rows, p, minions[..|minions| - 1]), minions[|minions| - 1], p.anomalies,
                          Now(p, minions[|minions| - 1]));
    }
  }

  lemma OthersUntouched(rows: Rows, p: Poll, last: string, minion: string)
    requires Keyed(rows) && last != minion
    ensures AgreeOn(One(rows, p, last), rows, minion)
  {
    forall fp | BelongsTo(fp, minion)
      ensures fp in One(rows, p, last) <==> fp in rows
      ensures fp in rows ==> One(rows, p, last)[fp] == rows[fp]
    {
      OneIsLocal(rows, p, last, fp);
    }
  }

  lemma AgreeTransitive(a: Rows, b: Rows, c: Rows, minion: string)
    requires AgreeOn(a, b, minion) && AgreeOn(b, c, minion)
    ensures AgreeOn(a, c, minion)
  {
  }

  /** After any list of minions, an incident's row depends on its own minion's reconcile alone. */
  lemma {:induction false} InOrderAt(rows: Rows, p: Poll, minions: seq<string>, minion: string)
    requires Keyed(rows) && NoRepeats(minions)
    ensures Keyed(InOrder(rows, p, minions))
    ensures AgreeOn(InOrder(rows, p, minions), if minion in minions then One(rows, p, minion) else rows, minion)
  {
    InOrderKeyed(rows, p, minions);
    if minions != [] {
      var front, last := minions[..|minions| - 1], minions[|minions| - 1];
      assert minions == front + [last] && last !in front;
      InOrderAt(rows, p, front, minion);
      var before := InOrder(rows, p, front);
      if minion == last {
        OneDependsOnItsMinion(before, rows, p, minion);
      } else {
        OthersUntouched(before, p, last, minion);
        AgreeTransitive(One(before, p, last), before, if minion in front then One(rows, p, minion) else rows, minion);
      }
    }
  }

  lemma {:induction false} ReportsAt(c: Config, rows: Rows, p: Poll, minions: seq<string>, minion: string)
    requires Keyed(rows) && NoRepeats(minions)
    ensures minion in Reports(c, rows, p, minions) <==> minion in minions
    ensures minion in minions ==> Reports(c, rows, p, minions)[minion] == ReportOf(c, rows, p, minion)
  {
    if minions != [] {
      var front, last := minions[..|minions| - 1], minions[|minions| - 1];
      assert minions == front + [last];
      ReportsAt(c, rows, p, front, minion);
      if minion == last {
        assert minion !in front;
        InOrderAt(rows, p, front, minion);
        ReportDependsOnItsMinion(c, InOrder(rows, p, front), rows, p, minion);
      }
    }
  }

  /** Any two orders of the same distinct minions leave the same table. */
  lemma SameTable(rows: Rows, p: Poll, minions: seq<string>, other: seq<string>)
    requires Keyed(rows) && NoRepeats(minions) && NoRepeats(other)
    requires forall m :: m in minions <==> m in other
    ensures InOrder(rows, p, minions) == InOrder(rows, p, other)
  {
    var a, b := InOrder(rows, p, minions), InOrder(rows, p, other);
    forall fp: Key ensures (fp in a <==> fp in b) && (fp in a ==> a[fp] == b[fp]) {
      InOrderAt(rows, p, minions, fp.minion);
      InOrderAt(rows, p, other, fp.minion);
      assert BelongsTo(fp, fp.minion);
    }
  }

  /** And they report the same to each minion. */
  lemma SameReports(c: Config, rows: Rows, p: Poll, minions: seq<string>, other: seq<string>)
    requires Keyed(rows) && NoRepeats(minions) && NoRepeats(other)
    requires forall m :: m in minions <==> m in other
    ensures Reports(c, rows, p, minions) == Reports(c, rows, p, other)
  {
    var a, b := Reports(c, rows, p, minions), Reports(c, rows, p, other);
    forall m ensures (m in a <==> m in b) && (m in a ==> a[m] == b[m]) {
      ReportsAt(c, rows, p, minions, m);
      ReportsAt(c, rows, p, other, m);
    }
  }

  /** The order in which the minions of a poll are reconciled makes no difference to the table or to any report. */
  lemma {:induction false} OrderDoesNotMatter(c: Config, rows: Rows, p: Poll, minions: seq<string>, other: seq<string>)
    requires Keyed(rows) && NoRepeats(minions) && NoRepeats(other)
    requires forall m :: m in minions <==> m in other
    ensures InOrder(rows, p, minions) == InOrder(rows, p, other)
    ensures Reports(c, rows, p, minions) == Reports(c, rows, p, other)
  {
    SameTable(rows, p, minions, other);
    SameReports(c, rows, p, minions, other);
  }
}
