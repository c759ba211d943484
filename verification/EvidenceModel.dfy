/** Evidence records, proposed analyses, and the gate that decides which conclusions stand. */
module EvidenceModel {
  import opened Domain

  /** A ledger identity `E<number>`, or any other text a model may cite. */
  datatype Id = E(number: nat) | Foreign(text: string)

  datatype Status = Ok | Missing | Stale | Failed | Contradictory

  /** `mentions` are the identities that occur in the summary text. */
  datatype Record = Record(
    id: Id, source: string, target: string, check: string, status: Status,
    summary: string, mentions: set<Id>, details: string, observedAt: real, contradicts: seq<Id>)

  /** A bullet of key evidence: as the model wrote it, or quoted from a record. */
  datatype Bullet = Stated(text: string, cites: set<Id>) | Quoted(id: Id, summary: string, mentions: set<Id>)
  {
    function Cites(): set<Id> {
      if Stated? then cites else {id} + mentions
    }
  }

  /** Why an analysis was downgraded. */
  datatype Reason =
    | FailedRecord(id: Id, summary: string, mentions: set<Id>)
    | StaleSupport(stale: seq<Id>)
    | Contradicted(contradicted: set<Id>)
    | TooFew
  {
    function References(): set<Id> {
      match this
      case FailedRecord(id, _, mentions) => {id} + mentions
      case StaleSupport(stale) => Members(stale)
      case Contradicted(contradicted) => contradicted
      case TooFew => {}
    }
  }

  datatype Cause = Proposed(text: string, refs: set<Id>) | Inconclusive(reasons: seq<Reason>)

  datatype Analysis = Analysis(
    confirmed: bool, component: string, cause: Cause,
    supporting: seq<Id>, keyEvidence: seq<Bullet>, confidence: real)

  datatype Options = Options(allowFailed: bool, maxAge: real, minimum: int)

  /** The nth record of a ledger has identity En. */
  ghost predicate Numbered(records: seq<Record>) {
    forall k :: 0 <= k < |records| ==> records[k].id == E(k + 1)
  }

  function Ids(records: seq<Record>): set<Id> {
    set r | r in records :: r.id
  }

  function Lookup(records: seq<Record>, id: Id): Option<Record> {
    if records == [] then None
    else if records[0].id == id then Some(records[0])
    else Lookup(records[1..], id)
  }

  /** The cited identities that exist, each once, in the order of their first citation. */
  function Supporting(cited: seq<Id>, allowed: set<Id>): seq<Id> {
    if cited == [] then
      []
    else
      var front, last := Supporting(cited[..|cited| - 1], allowed), cited[|cited| - 1];
      if last in allowed && last !in front then front + [last] else front
  }

  function Members(ids: seq<Id>): set<Id> {
    set x | x in ids
  }

  function GroundedBullets(bullets: seq<Bullet>, support: set<Id>): seq<Bullet> {
    if bullets == [] then
      []
    else
      var front, last := GroundedBullets(bullets[..|bullets| - 1], support), bullets[|bullets| - 1];
      if last.Cites() * support != {} then front + [last] else front
  }

  predicate TooOld(r: Record, o: Options, now: real) {
    now - r.observedAt < 0.0 || now - r.observedAt > o.maxAge
  }

  function StaleAmong(support: seq<Id>, records: seq<Record>, o: Options, now: real): seq<Id> {
    if support == [] then
      []
    else
      var front := StaleAmong(support[..|support| - 1], records, o, now);
      var found := Lookup(records, support[|support| - 1]);
      if found.Some? && TooOld(found.value, o, now) then front + [found.value.id] else front
  }

  function ContradictedAmong(support: seq<Id>, records: seq<Record>): set<Id> {
    set r, x | r in records && x in r.contradicts && x in support :: x
  }

  predicate Usable(support: seq<Id>, records: seq<Record>) {
    forall x :: x in support ==> Lookup(records, x).Some? && Lookup(records, x).value.status.Ok?
  }

  function Required(o: Options): int {
    if o.minimum < 1 then 1 else o.minimum
  }

  function References(c: Cause): set<Id> {
    if c.Proposed? then
      c.refs
    else
      set r, x | r in c.reasons && x in r.References() :: x
  }

  predicate Confirms(a: Analysis, records: seq<Record>, o: Options, now: real) {
    var support := Supporting(a.supporting, Ids(records));
    var refs := References(a.cause) * Ids(records);
    && a.confirmed
    && support != []
    && refs * Members(support) != {}
    && refs <= Members(support)
    && GroundedBullets(a.keyEvidence, Members(support)) != []
    && (o.allowFailed || Usable(support, records))
    && |support| >= Required(o)
    && StaleAmong(support, records, o, now) == []
    && ContradictedAmong(support, records) == {}
  }

  function FirstThree<T>(s: seq<T>): seq<T> {
    if |s| <= 3 then s else s[..3]
  }

  function NotOk(records: seq<Record>): seq<Record> {
    if records == [] then
      []
    else
      NotOk(records[..|records| - 1]) + (if records[|records| - 1].status.Ok? then [] else [records[|records| - 1]])
  }

  /** What a downgraded analysis falls back on: failed records if there are any. */
  function Fallback(records: seq<Record>): seq<Record> {
    FirstThree(if NotOk(records) != [] then NotOk(records) else records)
  }

  function IdsOf(records: seq<Record>): seq<Id> {
    seq(|records|, (k: nat) requires k < |records| => records[k].id)
  }

  function Quotes(records: seq<Record>): seq<Bullet> {
    seq(|records|, (k: nat) requires k < |records| => Quoted(records[k].id, records[k].summary, records[k].mentions))
  }

  function Reasons(support: seq<Id>, records: seq<Record>, o: Options, now: real): seq<Reason> {
    var failed := FirstThree(NotOk(records));
    var stale := StaleAmong(support, records, o, now);
    var contradicted := ContradictedAmong(support, records);
    seq(|failed|, (k: nat) requires k < |failed| => FailedRecord(failed[k].id, failed[k].summary, failed[k].mentions))
    + (if stale != [] then [StaleSupport(stale)] else [])
    + (if contradicted != {} then [Contradicted(contradicted)] else [])
    + (if |support| < Required(o) then [TooFew] else [])
  }

  function Grounded(a: Analysis, records: seq<Record>, o: Options, now: real): Analysis {
    var support := Supporting(a.supporting, Ids(records));
    if Confirms(a, records, o, now) then
      a.(supporting := support, keyEvidence := FirstThree(GroundedBullets(a.keyEvidence, Members(support))))
    else
      Analysis(
        false, "unknown", Inconclusive(Reasons(support, records, o, now)),
        IdsOf(Fallback(records)), Quotes(Fallback(records)),
        if a.confidence < 0.3 then a.confidence else 0.3)
  }
}
