/**
 Dependency operations, each behind its own breaker. An operation is awaited, so
 it has two halves: taking a slot, and recording how the operation ended.
 */
module DependencyManagerClass {
  import opened Domain
  import opened BreakerModel
  import opened BreakerRuns
  import opened CircuitBreakerClass

  datatype Admission =
    | UnknownDependency
    | Unavailable(retryAfter: real)
    | Started

  /** How an awaited operation ended. `accepted` is the verdict of the success predicate, if any. */
  datatype Outcome = Returned(accepted: bool) | TimedOut | Raised | Cancelled

  /** Too late, broken, or with a result that the caller does not accept. */
  predicate Fails(outcome: Outcome) {
    outcome == TimedOut || outcome == Raised || outcome == Returned(false)
  }

  /** The events an outcome means to the breaker; each observed outcome also takes a snapshot. */
  function EventsOf(outcome: Outcome, recordedAt: real, observedAt: real): seq<Timed> {
    match outcome
    case Cancelled => [Timed(Cancel, recordedAt)]
    case Returned(true) => [Timed(Succeed, recordedAt), Timed(Look, observedAt)]
    case _ => [Timed(Fail, recordedAt), Timed(Look, observedAt)]
  }

  class DependencyManager {
    const config: Config
    const breakers: map<string, CircuitBreaker>

    /** Every dependency has a breaker of its own. */
    ghost predicate Valid() {
      && (forall n <- breakers :: breakers[n].config == config)
      && (forall m, n :: m in breakers && n in breakers && breakers[m] == breakers[n] ==> m == n)
    }

    function Model(dependency: string): Breaker
      requires dependency in breakers
      reads breakers.Values
    {
      breakers[dependency].Model()
    }

    constructor (dependencies: seq<string>, failureThreshold: nat, recoveryTimeout: real)
      requires 1 <= failureThreshold && 0.0 < recoveryTimeout
      ensures Valid() && config == Config(failureThreshold, recoveryTimeout)
      ensures forall n :: n in breakers <==> n in dependencies
      ensures forall n <- breakers :: Model(n) == NEW_BREAKER && fresh(breakers[n])
    {
      var made: map<string, CircuitBreaker> := map[];
      var k := 0;
      while k < |dependencies|
        invariant 0 <= k <= |dependencies|
        invariant forall n :: n in made <==> n in dependencies[..k]
        invariant forall n <- made :: fresh(made[n]) && made[n].Model() == NEW_BREAKER
        invariant forall n <- made :: made[n].config == Config(failureThreshold, recoveryTimeout)
        invariant forall m, n :: m in made && n in made && made[m] == made[n] ==> m == n
      {
        var breaker := new CircuitBreaker(failureThreshold, recoveryTimeout);
        made := made[dependencies[k] := breaker];
        k := k + 1;
      }
      config := Config(failureThreshold, recoveryTimeout);
      breakers := made;
    }

    /** The first half of an operation: it starts exactly when its own breaker admits it. */
    method Begin(dependency: string, now: real) returns (r: Admission)
      requires Valid()
      modifies breakers.Values
      ensures r.UnknownDependency? <==> dependency !in breakers
      ensures dependency in breakers ==>
                && (r.Started? <==> Admits(config, old(Model(dependency)), now))
                && Model(dependency) == Step(config, Run(old(Model(dependency)), 0), Timed(Call, now)).breaker
      ensures r.Unavailable? ==> var b := old(Model(dependency));
                && r.retryAfter == Acquired(config, b, now).retryAfter
                && (b.openedAt.Some? ==>
                      r.retryAfter == if b.state.Open? && now - b.openedAt.value < config.recovery
                                      then config.recovery - (now - b.openedAt.value) else config.recovery)
      ensures forall n <- breakers :: n != dependency ==> Model(n) == old(Model(n))
    {
      if dependency !in breakers {
        return UnknownDependency;
      }
      var acquired := breakers[dependency].Acquire(now);
      if acquired.state.Open? {
        return Unavailable(acquired.retryAfter);
      }
      r := Started;
    }

    /** The second half: the outcome reaches the operation's own breaker and no other. */
    method Finish(dependency: string, outcome: Outcome, recordedAt: real, observedAt: real)
      returns (observed: Option<Snapshot>)
      requires Valid() && dependency in breakers
      modifies breakers[dependency]
      ensures observed.None? <==> outcome.Cancelled?
      ensures outcome.Cancelled? ==> Model(dependency) == old(Model(dependency))
      ensures outcome == Returned(true) ==>
                Model(dependency) == Breaker(Closed, 0, None, false) && observed == Some(Snapshot(Closed, 0, 0.0))
      ensures Fails(outcome) ==> var b, b' := old(Model(dependency)), Model(dependency);
                && b'.failures == b.failures + 1 && !b'.probing
                && (b.state.HalfOpen? || b'.failures >= config.threshold ==>
                      && b'.openedAt == Some(recordedAt)
                      && b'.state == if observedAt - recordedAt >= config.recovery then HalfOpen else Open)
                && (b.state.Closed? && b'.failures < config.threshold ==> b'.state.Closed? && b'.openedAt == b.openedAt)
      ensures Fails(outcome) ==> var b', s := Model(dependency), observed.value;
                && s.state == b'.state && s.failures == b'.failures
                && (!b'.state.Open? ==> s.retryAfter == 0.0)
                && (b'.state.Open? && b'.openedAt.Some? ==>
                      s.retryAfter == config.recovery - (observedAt - b'.openedAt.value))
      ensures var events := EventsOf(outcome, recordedAt, observedAt);
              && IsRun(config, Run(old(Model(dependency)), 1), events)
              && After(config, Run(old(Model(dependency)), 1), events) == Run(Model(dependency), 0)
      ensures forall n <- breakers :: n != dependency ==> Model(n) == old(Model(n))
    {
      var breaker := breakers[dependency];
      ghost var start := Run(breaker.Model(), 1);
      observed := None;
      match outcome
      case Cancelled =>
        OneEvent(config, start, Timed(Cancel, recordedAt));
      case Returned(true) =>
        breaker.RecordSuccess();
        var s := breaker.TakeSnapshot(observedAt);
        observed := Some(s);
        TwoEvents(config, start, Timed(Succeed, recordedAt), Timed(Look, observedAt));
      case _ =>
        breaker.RecordFailure(recordedAt);
        var s := breaker.TakeSnapshot(observedAt);
        observed := Some(s);
        TwoEvents(config, start, Timed(Fail, recordedAt), Timed(Look, observedAt));
    }
  }

  lemma OneEvent(c: Config, r: Run, e: Timed)
    requires Possible(r, e)
    ensures IsRun(c, r, [e]) && After(c, r, [e]) == Step(c, r, e)
  {
    assert [e][1..] == [];
  }

  lemma TwoEvents(c: Config, r: Run, e: Timed, f: Timed)
    requires Possible(r, e) && Possible(Step(c, r, e), f)
    ensures IsRun(c, r, [e, f]) && After(c, r, [e, f]) == Step(c, Step(c, r, e), f)
  {
    assert [e, f][1..] == [f];
    OneEvent(c, Step(c, r, e), f);
  }
}

/** Executions one after the other, each a Begin and, if it was let in, a Finish. */
module Executions {
  import opened BreakerModel
  import opened BreakerRuns
  import opened DependencyManagerClass

  datatype Execution = Execution(startedAt: real, outcome: Outcome, recordedAt: real, observedAt: real)

  ghost function Execute(c: Config, b: Breaker, x: Execution): Breaker {
    EventsArePossible(c, Acquire(c, b, x.startedAt), x);
    if Admits(c, b, x.startedAt) then
      After(c, Run(Acquire(c, b, x.startedAt), 1), EventsOf(x.outcome, x.recordedAt, x.observedAt)).breaker
    else
      Acquire(c, b, x.startedAt)
  }

  lemma EventsArePossible(c: Config, b: Breaker, x: Execution)
    ensures IsRun(c, Run(b, 1), EventsOf(x.outcome, x.recordedAt, x.observedAt))
  {
    OneEvent(c, Run(b, 1), Timed(Cancel, x.recordedAt));
    TwoEvents(c, Run(b, 1), Timed(Succeed, x.recordedAt), Timed(Look, x.observedAt));
    TwoEvents(c, Run(b, 1), Timed(Fail, x.recordedAt), Timed(Look, x.observedAt));
  }

  ghost function ExecuteAll(c: Config, b: Breaker, xs: seq<Execution>): Breaker
    decreases |xs|
  {
    if xs == [] then b else ExecuteAll(c, Execute(c, b, xs[0]), xs[1..])
  }

  function CountFailing(xs: seq<Execution>): nat {
    if xs == [] then 0 else (if Fails(xs[0].outcome) then 1 else 0) + CountFailing(xs[1..])
  }

  /** What one execution does to a breaker, on its fields. */
  lemma ExecutionMeans(c: Config, b: Breaker, x: Execution)
    requires ValidConfig(c) && Consistent(c, b)
    ensures Consistent(c, Execute(c, b, x))
    ensures b.state.Closed? && Fails(x.outcome) ==>
              Execute(c, b, x).failures == b.failures + 1
              && (Execute(c, b, x).state.Closed? <==> b.failures + 1 < c.threshold)
    ensures b.state.Closed? && x.outcome.Cancelled? ==> Execute(c, b, x) == b
    ensures x.outcome != Returned(true) && !b.state.Closed? ==> !Execute(c, b, x).state.Closed?
    ensures Admits(c, b, x.startedAt) && x.outcome == Returned(true) ==> Execute(c, b, x) == NEW_BREAKER
  {
    var r := Run(Acquire(c, b, x.startedAt), 1);
    OneEvent(c, r, Timed(Cancel, x.recordedAt));
    TwoEvents(c, r, Timed(Succeed, x.recordedAt), Timed(Look, x.observedAt));
    TwoEvents(c, r, Timed(Fail, x.recordedAt), Timed(Look, x.observedAt));
  }

  lemma {:induction false} StaysNotClosed(c: Config, b: Breaker, xs: seq<Execution>)
    requires ValidConfig(c) && Consistent(c, b) && !b.state.Closed?
    requires forall x :: x in xs ==> x.outcome != Returned(true)
    ensures !ExecuteAll(c, b, xs).state.Closed?
    decreases |xs|
  {
    if xs != [] {
      assert xs[0] in xs && forall x :: x in xs[1..] ==> x in xs;
      ExecutionMeans(c, b, xs[0]);
      StaysNotClosed(c, Execute(c, b, xs[0]), xs[1..]);
    }
  }

  /**
   While no result is accepted, a closed circuit stays closed exactly as long as
   fewer than `threshold` executions have failed since the last success, be it by
   a deadline, an exception or a rejected result. Cancelled ones do not matter.
   */
  lemma {:induction false} ClosedExactlyWhileFewFail(c: Config, b: Breaker, xs: seq<Execution>)
    requires ValidConfig(c) && Consistent(c, b) && b.state.Closed?
    requires forall x :: x in xs ==> x.outcome != Returned(true)
    ensures ExecuteAll(c, b, xs).state.Closed? <==> b.failures + CountFailing(xs) < c.threshold
    decreases |xs|
  {
    if xs != [] {
      var x, next := xs[0], Execute(c, b, xs[0]);
      assert x in xs && forall y :: y in xs[1..] ==> y in xs;
      ExecutionMeans(c, b, x);
      if next.state.Closed? {
        ClosedExactlyWhileFewFail(c, next, xs[1..]);
      } else {
        StaysNotClosed(c, next, xs[1..]);
      }
    }
  }

  lemma {:induction false} AllFailing(xs: seq<Execution>)
    requires forall x :: x in xs ==> Fails(x.outcome)
    ensures CountFailing(xs) == |xs|
  {
    if xs != [] {
      assert xs[0] in xs && forall x :: x in xs[1..] ==> x in xs;
      AllFailing(xs[1..]);
    }
  }

  /**
   So `threshold` executions in a row that were not cancelled and returned no
   accepted result leave the circuit not closed, from any state.
   */
  lemma FailuresOpenTheCircuit(c: Config, b: Breaker, xs: seq<Execution>)
    requires ValidConfig(c) && Consistent(c, b) && c.threshold <= |xs|
    requires forall x :: x in xs ==> !x.outcome.Cancelled? && x.outcome != Returned(true)
    ensures !ExecuteAll(c, b, xs).state.Closed?
  {
    AllFailing(xs);
    if b.state.Closed? {
      ClosedExactlyWhileFewFail(c, b, xs);
    } else {
      StaysNotClosed(c, b, xs);
    }
  }
}
