/** The evidence ledger and the grounding gate as the program runs them. */
module EvidenceLedgerClass {
  import opened Domain
  import opened EvidenceModel

  const TRUNCATED := "\n...[truncated]"

  class EvidenceLedger {
    const target: string
    var records: seq<Record>

    ghost predicate Valid()
      reads this
    {
      Numbered(records)
    }

    constructor (target: string)
      ensures Valid() && this.target == target && records == []
    {
      this.target, records := target, [];
    }

    /** `details` is already rendered, and `now` is the time the record is stamped with. */
    method Add(source: string, check: string, status: Status, summary: string, mentions: set<Id>, details: string,
               target: Option<string>, detailLimit: nat, contradicts: seq<Id>, now: real)
      returns (record: Record)
      requires Valid()
      modifies this`records
      ensures Valid() && records == old(records) + [record]
      ensures record.id == E(|records|) && record.id !in Ids(old(records))
      ensures record.details == if |details| > detailLimit then details[..detailLimit] + TRUNCATED else details
      ensures record.(details := "") == Record(
                E(|records|), source, if target.Some? && target.value != "" then target.value else this.target,
                check, status, summary, mentions, "", now, contradicts)
    {
      var rendered := details;
      if |rendered| > detailLimit {
        rendered := rendered[..detailLimit] + TRUNCATED;
      }
      var place := if target.Some? && target.value != "" then target.value else this.target;
      record := Record(E(|records| + 1), source, place, check, status, summary, mentions, rendered, now, contradicts);
      records := records + [record];
    }

    method AllIds() returns (r: set<Id>)
      requires Valid()
      ensures r == Ids(records)
      ensures r == set n: nat | 1 <= n <= |records| :: E(n)
    {
      r := set x | x in records :: x.id;
      forall n: nat | 1 <= n <= |records| ensures E(n) in r {
        assert records[n - 1] in records;
      }
    }

    method Get(id: Id) returns (r: Option<Record>)
      requires Valid()
      ensures r == Lookup(records, id)
      ensures r == if id.E? && 1 <= id.number <= |records| then Some(records[id.number - 1]) else None
    {
      for n := 0 to |records|
        invariant id.E? && 1 <= id.number <= |records| ==> n < id.number
        invariant Lookup(records, id) == Lookup(records[n..], id)
      {
        if records[n].id == id {
          return Some(records[n]);
        }
        assert records[n..][1..] == records[n + 1..];
      }
      r := None;
    }
  }

  method GroundAnalysis(a: Analysis, ledger: EvidenceLedger, o: Options, now: real) returns (r: Analysis)
    requires ledger.Valid()
    ensures r == Grounded(a, ledger.records, o, now)
  {
    var allowed := ledger.AllIds();
    var supporting := Supporting(a.supporting, allowed);
    var rootRefs := References(a.cause) * allowed;
    var bullets := GroundedBullets(a.keyEvidence, Members(supporting));
    var stale: seq<Id> := [];
    var usable := true;
    for n := 0 to |supporting|
      invariant stale == StaleAmong(supporting[..n], ledger.records, o, now)
      invariant usable <==> Usable(supporting[..n], ledger.records)
    {
      assert supporting[..n + 1][..n] == supporting[..n] && supporting[n] in supporting[..n + 1];
      var record := ledger.Get(supporting[n]);
      if record.Some? && TooOld(record.value, o, now) {
        stale := stale + [record.value.id];
      }
      usable := usable && record.Some? && record.value.status.Ok?;
    }
    assert supporting[..|supporting|] == supporting;
    var contradicted := ContradictedAmong(supporting, ledger.records);
    if && a.confirmed
       && supporting != []
       && rootRefs * Members(supporting) != {}
       && rootRefs <= Members(supporting)
       && bullets != []
       && (o.allowFailed || usable)
       && |supporting| >= Required(o)
       && stale == []
       && contradicted == {}
    {
      return a.(supporting := supporting, keyEvidence := FirstThree(bullets));
    }
    var confidence := if a.confidence < 0.3 then a.confidence else 0.3;
    var fallback := Fallback(ledger.records);
    r := Analysis(
      false, "unknown", Inconclusive(Reasons(supporting, ledger.records, o, now)),
      IdsOf(fallback), Quotes(fallback), confidence);
  }
}
