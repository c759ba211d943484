/**
 Two runs in which a job is released between its minion's reconcile and what the
 poll task does about the incident. Everything else is sound. In the first the
 task queues it, and the incident ends with two alerts; in the second it resolves
 it locally, and the alert stays behind a resolved row.
 */
module LateRelease {
  import opened Domain
  import opened Protocol
  import opened OrphanAlerts
  import opened Releases
  import opened SoundRuns
  import Q = QueueModel
  import P = WorkerPool
  import S = StoreModel

  const SETTINGS := Settings(S.Config(900, 1), 300.0, 5, 1)

  const HOST := "web"

  const INCIDENT := Key(HOST, "cpu", "", "")

  function Sighting(severity: Severity): Anomaly {
    Anomaly(HOST, "cpu", None, None, severity, 90.0, 80.0, Context(None, [], None, None, None))
  }

  /** The firing that both reconciles report: neither knows of a stored payload. */
  function Report(severity: Severity): Firing {
    Firing(Sighting(severity), INCIDENT, 0, None)
  }

  function Job(severity: Severity, sequence: nat, at: real): Q.Item {
    Q.Item(Priority(severity), sequence, INCIDENT, Work(Report(severity), at))
  }

  function Alert(severity: Severity): Labels {
    Labels(INCIDENT, severity)
  }

  /** A pool of one worker. */
  function OneWorker(pending: seq<Q.Item>, inFlight: set<Key>, phase: P.Phase, enqueued: nat, completed: nat): P.Pool {
    var counters := Q.Counters(enqueued, 0, completed, 0, 0, 0, 0);
    P.Pool(Q.Queue(5, pending, inFlight, enqueued, true, counters), [phase], false, 0)
  }

  const FIRST_ROW := S.Row(HOST, Warning, None, true, 0.0, 0.0, None, 0, 0, None, None)

  const ESCALATED_ROW := FIRST_ROW.(severity := Critical, lastSeen := 1.0)

  const MARKED_ROW := ESCALATED_ROW.(
    lastEmitted := Some(2.0), lastEmittedSeverity := Some(Warning), payload := Some(Payload(Alert(Warning), 0)))

  function Held(severity: Severity): map<string, Task> {
    map[HOST := Task([], NoPost, [Report(severity)])]
  }

  const QUEUED := State(map[INCIDENT := FIRST_ROW], OneWorker([Job(Warning, 0, 0.0)], {}, P.Idle, 1, 0), map[], {}, {})

  const REPLIED := State(
    map[INCIDENT := FIRST_ROW],
    OneWorker([], {INCIDENT}, P.Running(Job(Warning, 0, 0.0), P.DeliveryReplied(true)), 1, 0),
    map[], {Alert(Warning)}, {})

  const READ := REPLIED.(rows := map[INCIDENT := ESCALATED_ROW], tasks := Held(Critical))

  const MARKED := State(
    map[INCIDENT := MARKED_ROW],
    OneWorker([], {INCIDENT}, P.Counted(Job(Warning, 0, 0.0)), 1, 1),
    Held(Critical), {Alert(Warning)}, {})

  const RELEASED := MARKED.(pool := OneWorker([], {}, P.Idle, 1, 1))

  const REQUEUED := State(
    map[INCIDENT := MARKED_ROW],
    OneWorker([Job(Critical, 1, 2.0)], {}, P.Idle, 2, 1),
    map[HOST := Task([], NoPost, [])], {Alert(Warning)}, {})

  lemma SingleSelection(severity: Severity)
    ensures OfMinion([Sighting(severity)], HOST) == [Sighting(severity)]
    ensures S.PreferMoreSevere([Sighting(severity)]) == S.Selection([INCIDENT], map[INCIDENT := Sighting(severity)])
  {
    var a := Sighting(severity);
    assert [a][1..] == [];
    assert [a][..0] == [];
    assert S.PreferMoreSevere([]) == S.Selection([], map[]);
  }

  lemma SingleFiring(rows: S.Rows, severity: Severity, now: real)
    requires S.ShouldFire(SETTINGS.store, rows, HOST, INCIDENT, severity, now)
    ensures S.CycleFiring(SETTINGS.store, rows, HOST, [Sighting(severity)], now)
            == [S.FiringOf(rows, HOST, Sighting(severity), INCIDENT, now)]
  {
    SingleSelection(severity);
    var chosen := map[INCIDENT := Sighting(severity)];
    assert S.FiringList(SETTINGS.store, rows, HOST, [INCIDENT][..0], chosen, now) == [];
    assert S.FiringList(SETTINGS.store, rows, HOST, [INCIDENT], chosen, now)
        == [] + [S.FiringOf(rows, HOST, chosen[INCIDENT], INCIDENT, now)];
  }

  lemma FirstPoll() returns (events: seq<Event>)
    ensures SoundRun(SETTINGS, Initial(SETTINGS), events) && IsRun(SETTINGS, Initial(SETTINGS), events)
    ensures After(SETTINGS, Initial(SETTINGS), events) == QUEUED
  {
    var c, s0 := SETTINGS, Initial(SETTINGS);
    var e1 := Reconcile(HOST, [Sighting(Warning)], 0.0, []);
    var s1 := State(map[INCIDENT := FIRST_ROW], s0.pool, Held(Warning), {}, {});
    SingleSelection(Warning);
    SingleFiring(map[], Warning, 0.0);
    assert S.Reconcile(map[], HOST, [Sighting(Warning)], 0.0) == map[INCIDENT := FIRST_ROW];
    One(c, s0, e1, s1);
    var s2 := QUEUED.(tasks := map[HOST := Task([], NoPost, [])]);
    assert s0.pool == OneWorker([], {}, P.Idle, 0, 0);
    assert P.Apply(s0.pool, P.Offer(INCIDENT, Warning, Work(Report(Warning), 0.0))) == s2.pool;
    assert [Report(Warning)][1..] == [];
    Reaches(c, s0, [e1], s1, EnqueueNext(HOST, 0.0), s2);
    Reaches(c, s0, [e1] + [EnqueueNext(HOST, 0.0)], s2, EndTask(HOST), QUEUED);
    events := [e1] + [EnqueueNext(HOST, 0.0)] + [EndTask(HOST)];
  }

  /** The only worker takes the only job as far as a delivery that succeeds. */
  lemma Investigate(s: State, severity: Severity, sequence: nat, at: real, enqueued: nat, completed: nat, now: real)
    returns (events: seq<Event>)
    requires s.pool == OneWorker([Job(severity, sequence, at)], {}, P.Idle, enqueued, completed)
    requires INCIDENT in s.rows && S.IsActionable(s.rows, INCIDENT, 0) && now - at <= 300.0
    ensures SoundRun(SETTINGS, s, events) && IsRun(SETTINGS, s, events)
    ensures After(SETTINGS, s, events) == s.(
      pool := OneWorker(
        [], {INCIDENT}, P.Running(Job(severity, sequence, at), P.DeliveryReplied(true)), enqueued, completed),
      alerts := s.alerts + {Alert(severity)})
  {
    var c, job := SETTINGS, Job(severity, sequence, at);
    var busy := (stage: P.Stage) => OneWorker([], {INCIDENT}, P.Running(job, stage), enqueued, completed);
    var s1 := s.(pool := busy(P.Started));
    One(c, s, Take(0), s1);
    var s2 := s.(pool := busy(P.Investigating));
    Reaches(c, s, [Take(0)], s1, Start(0, now), s2);
    var s3 := s.(pool := busy(P.Delivering));
    Reaches(c, s, [Take(0)] + [Start(0, now)], s2, Analysed(0, true), s3);
    var s4 := s.(pool := busy(P.DeliveryReplied(true)), alerts := s.alerts + {Alert(severity)});
    Reaches(c, s, [Take(0)] + [Start(0, now)] + [Analysed(0, true)], s3, ServeDelivery(0, true, true), s4);
    events := [Take(0)] + [Start(0, now)] + [Analysed(0, true)] + [ServeDelivery(0, true, true)];
  }

  /** The next poll reads the row before the worker resumes, and the worker then acknowledges the old severity. */
  lemma SecondPoll() returns (events: seq<Event>)
    ensures SoundRun(SETTINGS, REPLIED, events) && IsRun(SETTINGS, REPLIED, events)
    ensures After(SETTINGS, REPLIED, events) == MARKED
  {
    var c := SETTINGS;
    var e := Reconcile(HOST, [Sighting(Critical)], 1.0, []);
    SingleSelection(Critical);
    SingleFiring(REPLIED.rows, Critical, 1.0);
    assert S.Reconcile(REPLIED.rows, HOST, [Sighting(Critical)], 1.0) == READ.rows;
    One(c, REPLIED, e, READ);
    Reaches(c, REPLIED, [e], READ, Delivered(0, 2.0), MARKED);
    events := [e] + [Delivered(0, 2.0)];
  }

  lemma Requeue()
    ensures SoundRun(SETTINGS, RELEASED, [EnqueueNext(HOST, 2.0)])
    ensures IsRun(SETTINGS, RELEASED, [EnqueueNext(HOST, 2.0)])
    ensures After(SETTINGS, RELEASED, [EnqueueNext(HOST, 2.0)]) == REQUEUED
  {
    assert [Report(Critical)][1..] == [];
    assert P.Apply(RELEASED.pool, P.Offer(INCIDENT, Critical, Work(Report(Critical), 2.0))) == REQUEUED.pool;
    One(SETTINGS, RELEASED, EnqueueNext(HOST, 2.0), REQUEUED);
  }

  lemma UpToTheRelease() returns (before: seq<Event>)
    ensures SoundRun(SETTINGS, Initial(SETTINGS), before) && IsRun(SETTINGS, Initial(SETTINGS), before)
    ensures After(SETTINGS, Initial(SETTINGS), before) == MARKED
  {
    var first := FirstPoll();
    var work := Investigate(QUEUED, Warning, 0, 0.0, 1, 0, 0.0);
    var second := SecondPoll();
    assert QUEUED.alerts + {Alert(Warning)} == {Alert(Warning)};
    Concat(SETTINGS, Initial(SETTINGS), first, work);
    Concat(SETTINGS, Initial(SETTINGS), first + work, second);
    before := first + work + second;
  }

  lemma AfterTheRelease() returns (after: seq<Event>)
    ensures SoundRun(SETTINGS, RELEASED, after) && IsRun(SETTINGS, RELEASED, after)
    ensures After(SETTINGS, RELEASED, after).alerts == {Alert(Warning), Alert(Critical)}
  {
    Requeue();
    var again := Investigate(REQUEUED, Critical, 1, 2.0, 2, 1, 2.0);
    Concat(SETTINGS, RELEASED, [EnqueueNext(HOST, 2.0)], again);
    after := [EnqueueNext(HOST, 2.0)] + again;
  }

  /** One unsound release, in an otherwise sound run, gives one incident two alerts. */
  lemma LateReleaseOrphans() returns (before: seq<Event>, after: seq<Event>)
    ensures SoundRun(SETTINGS, Initial(SETTINGS), before) && IsRun(SETTINGS, Initial(SETTINGS), before)
    ensures var s := After(SETTINGS, Initial(SETTINGS), before);
            Allowed(SETTINGS, s, LetGo(0)) && !Sound(s, LetGo(0)) &&
            var s' := Apply(SETTINGS, s, LetGo(0));
            SoundRun(SETTINGS, s', after) && IsRun(SETTINGS, s', after) && !NoOrphans(After(SETTINGS, s', after))
  {
    before := UpToTheRelease();
    assert Report(Critical) in MARKED.tasks[HOST].firing;
    assert Apply(SETTINGS, MARKED, LetGo(0)) == RELEASED;
    after := AfterTheRelease();
    assert Alert(Warning) != Alert(Critical);
  }

  // The same release while the incident is being resolved

  const RECOVERED_ROW := FIRST_ROW.(absent := 1)

  const RECORD := S.RecordOf(FIRST_ROW, INCIDENT)

  const RECOVERED := REPLIED.(rows := map[INCIDENT := RECOVERED_ROW], tasks := map[HOST := Task([RECORD], NoPost, [])])

  const MARKED_RECOVERED := State(
    map[INCIDENT := RECOVERED_ROW.(
      lastEmitted := Some(2.0), lastEmittedSeverity := Some(Warning), payload := Some(Payload(Alert(Warning), 0)))],
    OneWorker([], {INCIDENT}, P.Counted(Job(Warning, 0, 0.0)), 1, 1),
    map[HOST := Task([RECORD], NoPost, [])], {Alert(Warning)}, {})

  /** The next poll no longer sees the incident, and reads its row before the worker acknowledges the delivery. */
  lemma RecoveringPoll() returns (events: seq<Event>)
    ensures SoundRun(SETTINGS, REPLIED, events) && IsRun(SETTINGS, REPLIED, events)
    ensures After(SETTINGS, REPLIED, events) == MARKED_RECOVERED
  {
    var c := SETTINGS;
    var e := Reconcile(HOST, [], 1.0, [RECORD]);
    assert S.PreferMoreSevere(OfMinion([], HOST)) == S.Selection([], map[]);
    assert S.Reconcile(REPLIED.rows, HOST, [], 1.0) == RECOVERED.rows;
    assert S.ReportsResolved(c.store, REPLIED.rows, HOST, map[], INCIDENT);
    assert S.ResolvedSet(c.store, REPLIED.rows, HOST, map[]) == {RECORD};
    One(c, REPLIED, e, RECOVERED);
    Reaches(c, REPLIED, [e], RECOVERED, Delivered(0, 2.0), MARKED_RECOVERED);
    events := [e] + [Delivered(0, 2.0)];
  }

  lemma UpToTheLateRelease() returns (before: seq<Event>)
    ensures SoundRun(SETTINGS, Initial(SETTINGS), before) && IsRun(SETTINGS, Initial(SETTINGS), before)
    ensures After(SETTINGS, Initial(SETTINGS), before) == MARKED_RECOVERED
  {
    var first := FirstPoll();
    var work := Investigate(QUEUED, Warning, 0, 0.0, 1, 0, 0.0);
    var second := RecoveringPoll();
    assert QUEUED.alerts + {Alert(Warning)} == {Alert(Warning)};
    Concat(SETTINGS, Initial(SETTINGS), first, work);
    Concat(SETTINGS, Initial(SETTINGS), first + work, second);
    before := first + work + second;
  }

  lemma MarkedRecoveredIsCovered()
    ensures AboutToRelease(MARKED_RECOVERED, 0, INCIDENT) && !Covers(MARKED_RECOVERED.alerts, None, INCIDENT)
    ensures !Sound(MARKED_RECOVERED, LetGo(0)) && Allowed(SETTINGS, MARKED_RECOVERED, LetGo(0))
  {
    assert Alert(Warning) in MARKED_RECOVERED.alerts && RECORD in MARKED_RECOVERED.tasks[HOST].resolved;
    assert !UnreadCovers(MARKED_RECOVERED, INCIDENT);
  }

  /** The task then resolves the incident locally, and its alert is left behind. */
  lemma LateReleaseAbandons() returns (before: seq<Event>)
    ensures SoundRun(SETTINGS, Initial(SETTINGS), before) && IsRun(SETTINGS, Initial(SETTINGS), before)
    ensures var s := After(SETTINGS, Initial(SETTINGS), before);
            Allowed(SETTINGS, s, LetGo(0)) && !Sound(s, LetGo(0)) &&
            var s' := Apply(SETTINGS, s, LetGo(0));
            Allowed(SETTINGS, s', CancelNext(HOST, 3.0)) && !NoOrphans(Apply(SETTINGS, s', CancelNext(HOST, 3.0)))
  {
    before := UpToTheLateRelease();
    InitialSafe(SETTINGS);
    RunSafe(SETTINGS, Initial(SETTINGS), before);
    MarkedRecoveredIsCovered();
    ReleaseBeforeLocalResolution(SETTINGS, MARKED_RECOVERED, 0, INCIDENT, 3.0);
  }
}
