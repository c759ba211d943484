/**
 The running agent as a state machine. Every await of a poll task or of a worker
 ends one atomic event, so a run is any interleaving of the poll tasks of
 several minions, the workers, Alertmanager and a restart of the process.
 */
module Protocol {
  import opened Domain
  import Q = QueueModel
  import P = WorkerPool
  import S = StoreModel

  datatype Settings = Settings(store: S.Config, maxJobAge: real, maxPending: nat, workers: nat)

  /** The resolution a poll task is delivering. */
  datatype Post = NoPost | Sent(fp: Key, labels: Labels) | Replied(fp: Key, ok: bool)

  /** What one minion's poll task still has to do. */
  datatype Task = Task(resolved: seq<S.Record>, post: Post, firing: seq<Firing>)

  /**
   `alerts` is what Alertmanager holds as firing. `strays` are firing requests
   whose sender no longer waits for the reply, and which may still arrive.
   */
  datatype State = State(
    rows: S.Rows, pool: P.Pool, tasks: map<string, Task>, alerts: set<Labels>, strays: set<Labels>)

  datatype StopKind = Timeout | Error | Cancellation

  datatype Event =
    // a minion's poll task
    | Reconcile(minion: string, cycle: seq<Anomaly>, now: real, resolved: seq<S.Record>)
    | CancelNext(minion: string, now: real)
    | ServeResolution(minion: string, effect: bool, report: bool)
    | FinishResolution(minion: string, now: real)
    | EnqueueNext(minion: string, now: real)
    | EndTask(minion: string)
    // a worker
    | Take(w: nat)
    | Start(w: nat, now: real)
    | Analysed(w: nat, produced: bool)
    | ServeTransition(w: nat, effect: bool, report: bool)
    | Transitioned(w: nat)
    | ServeDelivery(w: nat, effect: bool, report: bool)
    | LoseDelivery(w: nat)  // reported as a failure, but the request may still arrive
    | Delivered(w: nat, now: real)
    | Stop(w: nat, how: StopKind)
    | LetGo(w: nat)
    | Leave(w: nat)
    // the surroundings
    | Arrive(labels: Labels)
    | Expire(labels: Labels)
    | Shut
    | Restart

  function Initial(c: Settings): State {
    State(map[], P.Fresh(c.maxPending, c.workers), map[], {}, {})
  }

  function ItemOf(s: State, w: nat): Q.Item
    requires w < |s.pool.workers| && s.pool.workers[w].Running?
  {
    s.pool.workers[w].item
  }

  predicate At(s: State, w: nat, stage: P.Stage) {
    w < |s.pool.workers| && s.pool.workers[w].Running? && s.pool.workers[w].stage == stage
  }

  /** The label identity under which an incident fires. */
  function FiringLabels(f: Firing): Labels {
    Labels(f.anomaly.IdentityKey(), f.anomaly.severity)
  }

  function NewLabels(item: Q.Item): Labels {
    FiringLabels(item.payload.firing)
  }

  function NewPayload(item: Q.Item): Payload {
    Payload(NewLabels(item), item.payload.firing.startsAt)
  }

  predicate LabelsChanged(item: Q.Item) {
    var previous := item.payload.firing.previous;
    previous.Some? && previous.value.labels != NewLabels(item)
  }

  predicate Actionable(s: State, item: Q.Item) {
    S.IsActionable(s.rows, item.payload.firing.fingerprint, item.payload.firing.startsAt)
  }

  predicate Enabled(c: Settings, s: State, e: Event) {
    match e
    case Reconcile(minion, cycle, now, resolved) => minion !in s.tasks
    case CancelNext(minion, _) =>
      minion in s.tasks && s.tasks[minion].post.NoPost? && s.tasks[minion].resolved != []
    case ServeResolution(minion, _, _) => minion in s.tasks && s.tasks[minion].post.Sent?
    case FinishResolution(minion, _) => minion in s.tasks && s.tasks[minion].post.Replied?
    case EnqueueNext(minion, _) =>
      && minion in s.tasks && s.tasks[minion].post.NoPost?
      && s.tasks[minion].resolved == [] && s.tasks[minion].firing != []
      && 1 <= s.pool.queue.maxPending
    case EndTask(minion) => minion in s.tasks
    case Take(w) => P.Enabled(s.pool, P.Take(w))
    case Start(w, _) => At(s, w, P.Started)
    case Analysed(w, _) => At(s, w, P.Investigating)
    case ServeTransition(w, _, _) => At(s, w, P.Resolving)
    case Transitioned(w) => At(s, w, P.ResolveReplied(true)) || At(s, w, P.ResolveReplied(false))
    case ServeDelivery(w, _, _) => At(s, w, P.Delivering)
    case LoseDelivery(w) => At(s, w, P.Delivering)
    case Delivered(w, _) => At(s, w, P.DeliveryReplied(true)) || At(s, w, P.DeliveryReplied(false))
    case Stop(w, _) => w < |s.pool.workers| && s.pool.workers[w].Running?
    case LetGo(w) => P.Enabled(s.pool, P.LetGo(w))
    case Leave(w) => P.Enabled(s.pool, P.Leave(w))
    case Arrive(labels) => labels in s.strays
    case Expire(labels) => true
    case Shut => true
    case Restart => true
  }

  /** A reconcile may list the resolved records in any order. */
  ghost predicate Allowed(c: Settings, s: State, e: Event) {
    && Enabled(c, s, e)
    && (e.Reconcile? ==>
          var chosen := S.PreferMoreSevere(OfMinion(e.cycle, e.minion)).chosen;
          S.ListsResolved(c.store, s.rows, e.minion, chosen, e.resolved))
  }

  function PoolStep(s: State, step: P.Step): State
    requires P.Enabled(s.pool, step)
  {
    s.(pool := P.Apply(s.pool, step))
  }

  function SetTask(s: State, minion: string, task: Task): State {
    s.(tasks := s.tasks[minion := task])
  }

  function Begin(c: Settings, s: State, e: Event): State
    requires e.Reconcile?
  {
    var detected := OfMinion(e.cycle, e.minion);
    var firing := S.CycleFiring(c.store, s.rows, e.minion, detected, e.now);
    SetTask(s, e.minion, Task(e.resolved, NoPost, firing)).(
      rows := S.Reconcile(s.rows, e.minion, detected, e.now))
  }

  /** Cancel the pending job of a resolved incident, then start or skip its resolution. */
  function CancelOne(s: State, minion: string, now: real): State
    requires minion in s.tasks && s.tasks[minion].resolved != []
  {
    var task := s.tasks[minion];
    var record := task.resolved[0];
    var rest := Task(task.resolved[1..], NoPost, task.firing);
    var status := Q.Cancel(s.pool.queue, record.fingerprint).1;
    var s' := PoolStep(s, P.Withdraw(record.fingerprint));
    if status.CancelInFlight? then
      SetTask(s', minion, rest)
    else if record.payload.None? then
      SetTask(s', minion, rest).(rows := S.MarkResolved(s.rows, record.fingerprint, now))
    else
      SetTask(s', minion, rest.(post := Sent(record.fingerprint, record.payload.value.labels)))
  }

  /** Alertmanager answers the resolution a poll task sent. */
  function AnswerResolution(s: State, minion: string, effect: bool, report: bool): State
    requires minion in s.tasks && s.tasks[minion].post.Sent?
  {
    var post := s.tasks[minion].post;
    SetTask(s, minion, s.tasks[minion].(post := Replied(post.fp, report))).(
      alerts := if effect then s.alerts - {post.labels} else s.alerts)
  }

  /** The poll task acts on the answer. */
  function ConcludeResolution(s: State, minion: string, now: real): State
    requires minion in s.tasks && s.tasks[minion].post.Replied?
  {
    var post := s.tasks[minion].post;
    SetTask(s, minion, s.tasks[minion].(post := NoPost)).(
      rows := if post.ok then S.MarkResolved(s.rows, post.fp, now) else s.rows)
  }

  function EnqueueOne(s: State, minion: string, now: real): State
    requires minion in s.tasks && s.tasks[minion].firing != [] && 1 <= s.pool.queue.maxPending
  {
    var task := s.tasks[minion];
    var firing := task.firing[0];
    var s' := PoolStep(s, P.Offer(firing.fingerprint, firing.anomaly.severity, Work(firing, now)));
    SetTask(s', minion, task.(firing := task.firing[1..]))
  }

  function Finish(s: State, w: nat): State
    requires P.Enabled(s.pool, P.Finish(w, true))
  {
    PoolStep(s, P.Finish(w, true))
  }

  function Resume(s: State, w: nat, stage: P.Stage): State
    requires P.Enabled(s.pool, P.Advance(w, stage))
  {
    PoolStep(s, P.Advance(w, stage))
  }

  /** A request that was sent and not answered when its worker stopped. */
  function Strays(s: State, w: nat): set<Labels> {
    if At(s, w, P.Delivering) then {NewLabels(ItemOf(s, w))} else {}
  }

  function Apply(c: Settings, s: State, e: Event): State
    requires Enabled(c, s, e)
  {
    match e
    case Reconcile(_, _, _, _) => Begin(c, s, e)
    case CancelNext(minion, now) => CancelOne(s, minion, now)
    case ServeResolution(minion, effect, report) => AnswerResolution(s, minion, effect, report)
    case FinishResolution(minion, now) => ConcludeResolution(s, minion, now)
    case EnqueueNext(minion, now) => EnqueueOne(s, minion, now)
    case EndTask(minion) => s.(tasks := s.tasks - {minion})
    case Take(w) => PoolStep(s, P.Take(w))
    case Start(w, now) =>
      if now - ItemOf(s, w).payload.detectedAt > c.maxJobAge || !Actionable(s, ItemOf(s, w)) then
        Finish(s, w)
      else
        Resume(s, w, P.Investigating)
    case Analysed(w, produced) =>
      if !produced || !Actionable(s, ItemOf(s, w)) then
        Finish(s, w)
      else
        Resume(s, w, if LabelsChanged(ItemOf(s, w)) then P.Resolving else P.Delivering)
    case ServeTransition(w, effect, report) =>
      var previous := ItemOf(s, w).payload.firing.previous;
      Resume(s, w, P.ResolveReplied(report)).(
        alerts := if effect && previous.Some? then s.alerts - {previous.value.labels} else s.alerts)
    case Transitioned(w) =>
      if !s.pool.workers[w].stage.ok || !Actionable(s, ItemOf(s, w)) then
        Finish(s, w)
      else
        Resume(s, w, P.Delivering)
    case ServeDelivery(w, effect, report) =>
      Resume(s, w, P.DeliveryReplied(report)).(
        alerts := if effect then s.alerts + {NewLabels(ItemOf(s, w))} else s.alerts)
    case LoseDelivery(w) =>
      Resume(s, w, P.DeliveryReplied(false)).(strays := s.strays + {NewLabels(ItemOf(s, w))})
    case Delivered(w, now) =>
      var item := ItemOf(s, w);
      var firing := item.payload.firing;
      Finish(s, w).(
        rows := if s.pool.workers[w].stage.ok
                then S.MarkEmitted(s.rows, firing.fingerprint, NewPayload(item), now, Some(firing.startsAt))
                else s.rows)
    case Stop(w, how) =>
      var step := match how
        case Timeout => P.Finish(w, true)
        case Error => P.Finish(w, false)
        case Cancellation => P.Interrupt(w);
      PoolStep(s, step).(strays := s.strays + Strays(s, w))
    case LetGo(w) => PoolStep(s, P.LetGo(w))
    case Leave(w) => PoolStep(s, P.Leave(w))
    case Arrive(labels) => s.(alerts := s.alerts + {labels}, strays := s.strays - {labels})
    case Expire(labels) => s.(alerts := s.alerts - {labels})
    case Shut => PoolStep(s, P.Shut)
    case Restart =>
      State(s.rows, P.Fresh(c.maxPending, c.workers), map[], s.alerts,
            s.strays + set w | 0 <= w < |s.pool.workers| && At(s, w, P.Delivering) :: NewLabels(ItemOf(s, w)))
  }

  ghost predicate IsRun(c: Settings, s: State, events: seq<Event>)
    decreases |events|
  {
    events == [] || (Allowed(c, s, events[0]) && IsRun(c, Apply(c, s, events[0]), events[1..]))
  }

  ghost function After(c: Settings, s: State, events: seq<Event>): State
    requires IsRun(c, s, events)
    decreases |events|
  {
    if events == [] then s else After(c, Apply(c, s, events[0]), events[1..])
  }
}
