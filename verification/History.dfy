/** History agreement: what the absence counter of a row says about the cycles reconciled so far. */
module History {
  import opened Domain
  import opened StoreModel

  datatype Op =
    | Cycle(minion: string, anomalies: seq<Anomaly>, now: real)
    | Emit(fp: Key, payload: Payload, at: real, startsAt: Option<int>)
    | Resolve(fp: Key, at: real)

  function Step(rows: Rows, op: Op): Rows {
    match op
    case Cycle(minion, anomalies, now) => Reconcile(rows, minion, OfMinion(anomalies, minion), now)
    case Emit(fp, payload, at, startsAt) => MarkEmitted(rows, fp, payload, at, startsAt)
    case Resolve(fp, at) => MarkResolved(rows, fp, at)
  }

  /** The table after a history that began with an empty one. */
  function TableAfter(ops: seq<Op>): Rows {
    if ops == [] then map[] else Step(TableAfter(ops[..|ops| - 1]), ops[|ops| - 1])
  }

  /** A cycle of the incident's minion. */
  predicate Concerns(op: Op, fp: Key) {
    op.Cycle? && op.minion == fp.minion
  }

  predicate Contains(op: Op, fp: Key) {
    op.Cycle? && exists a :: a in op.anomalies && a.minion == op.minion && a.IdentityKey() == fp
  }

  /** The cycles of the incident's minion since the last one that contained it. */
  function CyclesWithout(ops: seq<Op>, fp: Key): nat {
    if ops == [] then
      0
    else
      var front, last := ops[..|ops| - 1], ops[|ops| - 1];
      if !Concerns(last, fp) then CyclesWithout(front, fp)
      else if Contains(last, fp) then 0
      else CyclesWithout(front, fp) + 1
  }

  lemma ContainsIsChosen(op: Op, fp: Key)
    requires op.Cycle?
    ensures Contains(op, fp) <==> fp in PreferMoreSevere(OfMinion(op.anomalies, op.minion)).chosen
  {
    SelectionWellFormed(OfMinion(op.anomalies, op.minion));
    if fp in PreferMoreSevere(OfMinion(op.anomalies, op.minion)).chosen {
      var a := PreferMoreSevere(OfMinion(op.anomalies, op.minion)).chosen[fp];
      assert a in op.anomalies && a.minion == op.minion && a.IdentityKey() == fp;
    }
  }

  lemma {:induction false} TableKeyed(ops: seq<Op>)
    ensures Keyed(TableAfter(ops))
  {
    if ops != [] {
      TableKeyed(ops[..|ops| - 1]);
      var last := ops[|ops| - 1];
      if last.Cycle? {
        ReconcileKeepsKeyed(TableAfter(ops[..|ops| - 1]), last.minion, last.anomalies, last.now);
      }
    }
  }

  /** An active row counts exactly the cycles of its minion since the last one that contained it. */
  lemma {:induction false} AbsentAgreesWithHistory(ops: seq<Op>, fp: Key)
    requires fp in TableAfter(ops) && TableAfter(ops)[fp].active
    ensures TableAfter(ops)[fp].absent == CyclesWithout(ops, fp)
  {
    if ops != [] {
      var front, last := ops[..|ops| - 1], ops[|ops| - 1];
      var rows := TableAfter(front);
      TableKeyed(front);
      if last.Cycle? {
        ContainsIsChosen(last, fp);
        ChosenIsOfMinion(last.anomalies, last.minion, fp);
        ReconcileAt(rows, last.minion, OfMinion(last.anomalies, last.minion), last.now, fp);
      }
      if fp in rows && rows[fp].active {
        AbsentAgreesWithHistory(front, fp);
      }
    }
  }

  /** Whether the next cycle reports the incident as resolved. */
  predicate Reported(c: Config, ops: seq<Op>, next: Op, fp: Key)
    requires next.Cycle?
  {
    ReportsResolved(c, TableAfter(ops), next.minion, PreferMoreSevere(OfMinion(next.anomalies, next.minion)).chosen, fp)
  }

  /**
   A cycle reports an incident as resolved exactly when the incident is active
   and this is at least the `resolveAfter`-th cycle in a row without it.
   */
  lemma ReportedIffAbsentLongEnough(c: Config, ops: seq<Op>, next: Op, fp: Key)
    requires next.Cycle? && next.minion == fp.minion && 1 <= c.resolveAfter
    ensures Reported(c, ops, next, fp)
       <==> fp in TableAfter(ops) && TableAfter(ops)[fp].active && CyclesWithout(ops + [next], fp) >= c.resolveAfter
  {
    TableKeyed(ops);
    ContainsIsChosen(next, fp);
    assert (ops + [next])[..|ops|] == ops && (ops + [next])[|ops|] == next;
    if fp in TableAfter(ops) && TableAfter(ops)[fp].active {
      AbsentAgreesWithHistory(ops, fp);
    }
  }

  /** Nothing between two points of a history resolves the incident or contains it. */
  ghost predicate Undisturbed(ops: seq<Op>, fp: Key) {
    forall op :: op in ops ==> !(op.Resolve? && op.fp == fp) && !Contains(op, fp)
  }

  lemma UndisturbedStep(ops: seq<Op>, op: Op, fp: Key)
    requires fp in TableAfter(ops) && TableAfter(ops)[fp].active
    requires !(op.Resolve? && op.fp == fp) && !Contains(op, fp)
    ensures fp in TableAfter(ops + [op]) && TableAfter(ops + [op])[fp].active
    ensures CyclesWithout(ops + [op], fp) >= CyclesWithout(ops, fp)
  {
    assert (ops + [op])[..|ops|] == ops;
    if op.Cycle? {
      ContainsIsChosen(op, fp);
      ReconcileAt(TableAfter(ops), op.minion, OfMinion(op.anomalies, op.minion), op.now, fp);
    }
  }

  lemma Regroup(ops: seq<Op>, more: seq<Op>)
    requires more != []
    ensures (ops + more[..|more| - 1]) + [more[|more| - 1]] == ops + more
  {
  }

  lemma {:induction false} UndisturbedStaysActive(ops: seq<Op>, more: seq<Op>, fp: Key)
    requires fp in TableAfter(ops) && TableAfter(ops)[fp].active && Undisturbed(more, fp)
    ensures fp in TableAfter(ops + more) && TableAfter(ops + more)[fp].active
    ensures CyclesWithout(ops + more, fp) >= CyclesWithout(ops, fp)
  {
    if more == [] {
      assert ops + more == ops;
    } else {
      var front, last := more[..|more| - 1], more[|more| - 1];
      assert last in more && forall op :: op in front ==> op in more;
      UndisturbedStaysActive(ops, front, fp);
      UndisturbedStep(ops + front, last, fp);
      Regroup(ops, more);
    }
  }

  /** Once reported, an incident is reported by every later cycle of its minion until it is resolved or reappears. */
  lemma ReportedAgain(c: Config, ops: seq<Op>, next: Op, more: seq<Op>, again: Op, fp: Key)
    requires next.Cycle? && next.minion == fp.minion && again.Cycle? && again.minion == fp.minion && 1 <= c.resolveAfter
    requires Reported(c, ops, next, fp) && Undisturbed(more, fp) && !Contains(again, fp)
    ensures Reported(c, ops + [next] + more, again, fp)
  {
    TableKeyed(ops);
    ContainsIsChosen(next, fp);
    assert Undisturbed([next], fp);
    ReportedIffAbsentLongEnough(c, ops, next, fp);
    UndisturbedStaysActive(ops, [next], fp);
    UndisturbedStaysActive(ops + [next], more, fp);
    var past := ops + [next] + more;
    assert (past + [again])[..|past|] == past;
    ReportedIffAbsentLongEnough(c, past, again, fp);
  }
}
