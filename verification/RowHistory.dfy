/**
 What every column of a row says about the history of the store, told on the
 history alone: which cycles contained the incident, and what was acknowledged
 and resolved in between.
 */
module RowHistory {
  import opened Domain
  import opened StoreModel
  import opened History

  /** A cycle containing the incident came after the last resolution of it. */
  ghost predicate Live(ops: seq<Op>, fp: Key) {
    ops != [] &&
    var front, last := ops[..|ops| - 1], ops[|ops| - 1];
    Contains(last, fp) || (Live(front, fp) && !(last.Resolve? && last.fp == fp))
  }

  /** The last operation starts a new generation of the incident. */
  ghost predicate StartsAnew(ops: seq<Op>, fp: Key)
    requires ops != []
  {
    Contains(ops[|ops| - 1], fp) && !Live(ops[..|ops| - 1], fp)
  }

  /** When the present generation began, and when a cycle last contained the incident. */
  ghost function Began(ops: seq<Op>, fp: Key): real {
    if ops == [] then 0.0
    else if StartsAnew(ops, fp) then ops[|ops| - 1].now
    else Began(ops[..|ops| - 1], fp)
  }

  ghost function Seen(ops: seq<Op>, fp: Key): real {
    if ops == [] then 0.0
    else if Contains(ops[|ops| - 1], fp) then ops[|ops| - 1].now
    else Seen(ops[..|ops| - 1], fp)
  }

  /** The severity with which it was last seen: that of the most severe of its anomalies. */
  ghost function SeenAs(ops: seq<Op>, fp: Key): Severity {
    if ops == [] then
      Other("")
    else
      var last := ops[|ops| - 1];
      ContainsIsChosenIn(last, fp);
      if Contains(last, fp) then
        PreferMoreSevere(OfMinion(last.anomalies, last.minion)).chosen[fp].severity
      else
        SeenAs(ops[..|ops| - 1], fp)
  }

  lemma ContainsIsChosenIn(op: Op, fp: Key)
    ensures Contains(op, fp) ==> fp in PreferMoreSevere(OfMinion(op.anomalies, op.minion)).chosen
  {
    if Contains(op, fp) { ContainsIsChosen(op, fp); }
  }

  datatype Emission = Emission(at: real, severity: Severity, payload: Payload)

  /** An acknowledgement counts if it names the incident, which is live, and no other generation of it. */
  ghost predicate Counts(op: Op, ops: seq<Op>, fp: Key) {
    op.Emit? && op.fp == fp && Live(ops, fp) && (op.startsAt == None || op.startsAt == Some(Began(ops, fp).Floor))
  }

  /** The last acknowledgement of the present generation. Without a severity label it counts for the one last seen. */
  ghost function LastEmission(ops: seq<Op>, fp: Key): Option<Emission> {
    if ops == [] then
      None
    else
      var front, last := ops[..|ops| - 1], ops[|ops| - 1];
      if StartsAnew(ops, fp) then
        None
      else if Counts(last, front, fp) then
        var shown := last.payload.labels.severity;
        Some(Emission(last.at, if shown == Other("") then SeenAs(front, fp) else shown, last.payload))
      else
        LastEmission(front, fp)
  }

  /** The moment of the last resolution of a live incident. */
  ghost function ResolvedTime(ops: seq<Op>, fp: Key): real {
    if ops == [] then
      0.0
    else
      var front, last := ops[..|ops| - 1], ops[|ops| - 1];
      if last.Resolve? && last.fp == fp && Live(front, fp) then last.at else ResolvedTime(front, fp)
  }

  ghost predicate RowTells(row: Row, ops: seq<Op>, fp: Key) {
    && row.minion == fp.minion
    && row.active == Live(ops, fp) && row.resolvedAt == (if Live(ops, fp) then None else Some(ResolvedTime(ops, fp)))
    && row.firstSeen == Began(ops, fp) && row.startsAt == Began(ops, fp).Floor
    && row.lastSeen == Seen(ops, fp) && row.severity == SeenAs(ops, fp)
    && match LastEmission(ops, fp)
       case None => row.lastEmitted == None && row.lastEmittedSeverity == None && row.payload == None
       case Some(e) =>
         row.lastEmitted == Some(e.at) && row.lastEmittedSeverity == Some(e.severity) && row.payload == Some(e.payload)
  }

  ghost predicate EverContained(ops: seq<Op>, fp: Key) {
    exists k :: 0 <= k < |ops| && Contains(ops[k], fp)
  }

  ghost predicate TableTells(ops: seq<Op>, fp: Key) {
    && (fp in TableAfter(ops) <==> EverContained(ops, fp))
    && (fp in TableAfter(ops) ==> RowTells(TableAfter(ops)[fp], ops, fp))
    && (Live(ops, fp) ==> EverContained(ops, fp))
  }

  lemma ContainedMore(ops: seq<Op>, op: Op, fp: Key)
    ensures EverContained(ops + [op], fp) <==> EverContained(ops, fp) || Contains(op, fp)
  {
    var all := ops + [op];
    assert all[|ops|] == op && forall k :: 0 <= k < |ops| ==> all[k] == ops[k];
  }

  lemma CycleTells(ops: seq<Op>, op: Op, fp: Key)
    requires op.Cycle? && TableTells(ops, fp)
    ensures TableTells(ops + [op], fp)
  {
    var all := ops + [op];
    assert all[..|all| - 1] == ops && all[|all| - 1] == op;
    ContainedMore(ops, op, fp);
    TableKeyed(ops);
    ContainsIsChosen(op, fp);
    ChosenIsOfMinion(op.anomalies, op.minion, fp);
    ReconcileAt(TableAfter(ops), op.minion, OfMinion(op.anomalies, op.minion), op.now, fp);
  }

  lemma EmissionTells(ops: seq<Op>, op: Op, fp: Key)
    requires op.Emit? && TableTells(ops, fp)
    ensures TableTells(ops + [op], fp)
  {
    var all := ops + [op];
    assert all[..|all| - 1] == ops && all[|all| - 1] == op;
    ContainedMore(ops, op, fp);
  }

  lemma ResolutionTells(ops: seq<Op>, op: Op, fp: Key)
    requires op.Resolve? && TableTells(ops, fp)
    ensures TableTells(ops + [op], fp)
  {
    var all := ops + [op];
    assert all[..|all| - 1] == ops && all[|all| - 1] == op;
    ContainedMore(ops, op, fp);
  }

  /**
   Over every history the table has a row for exactly the incidents that some cycle
   contained, active while the incident is live, with columns that tell this much.
   */
  lemma {:induction false} RowIsItsHistory(ops: seq<Op>, fp: Key)
    ensures fp in TableAfter(ops) <==> EverContained(ops, fp)
    ensures fp in TableAfter(ops) ==> RowTells(TableAfter(ops)[fp], ops, fp)
    ensures Live(ops, fp) ==> EverContained(ops, fp)
  {
    if ops != [] {
      var front, last := ops[..|ops| - 1], ops[|ops| - 1];
      RowIsItsHistory(front, fp);
      assert ops == front + [last];
      match last
      case Cycle(_, _, _) => CycleTells(front, last, fp);
      case Emit(_, _, _, _) => EmissionTells(front, last, fp);
      case Resolve(_, _) => ResolutionTells(front, last, fp);
    }
  }
}
