/** The circuit breaker as a value, and each of its operations as a function of it and the clock. */
module BreakerModel {
  import opened Domain

  datatype Config = Config(threshold: nat, recovery: real)

  ghost predicate ValidConfig(c: Config) {
    1 <= c.threshold && 0.0 < c.recovery
  }

  datatype CircuitState = Closed | Open | HalfOpen

  datatype Breaker = Breaker(state: CircuitState, failures: nat, openedAt: Option<real>, probing: bool)

  datatype Snapshot = Snapshot(state: CircuitState, failures: nat, retryAfter: real)

  const NEW_BREAKER := Breaker(Closed, 0, None, false)

  /** An open circuit turns half-open when it is next looked at, once the timeout has passed. */
  function Refresh(c: Config, b: Breaker, now: real): Breaker {
    if b.state.Open? && b.openedAt.Some? && now - b.openedAt.value >= c.recovery then
      b.(state := HalfOpen, probing := false)
    else
      b
  }

  function SnapshotOf(c: Config, b: Breaker, now: real): Snapshot {
    var r := Refresh(c, b, now);
    var wait := if r.state.Open? && r.openedAt.Some? then c.recovery - (now - r.openedAt.value) else 0.0;
    Snapshot(r.state, r.failures, if wait > 0.0 then wait else 0.0)
  }

  predicate Admits(c: Config, b: Breaker, now: real) {
    var r := Refresh(c, b, now);
    r.state.Closed? || (r.state.HalfOpen? && !r.probing)
  }

  function Acquire(c: Config, b: Breaker, now: real): Breaker {
    var r := Refresh(c, b, now);
    if r.state.HalfOpen? then r.(probing := true) else r
  }

  function Acquired(c: Config, b: Breaker, now: real): Snapshot {
    var s := SnapshotOf(c, b, now);
    if s.state.HalfOpen? && Refresh(c, b, now).probing then Snapshot(Open, s.failures, c.recovery) else s
  }

  function Success(b: Breaker): Breaker {
    NEW_BREAKER
  }

  function Failure(c: Config, b: Breaker, now: real): Breaker {
    var failures := b.failures + 1;
    if b.state.HalfOpen? || failures >= c.threshold then
      Breaker(Open, failures, Some(now), false)
    else
      b.(failures := failures, probing := false)
  }

  /** The state and the counter agree, and a circuit that is not closed knows when it opened. */
  ghost predicate Consistent(c: Config, b: Breaker) {
    && (b.state.Closed? <==> b.failures < c.threshold)
    && (b.state.Closed? <==> b.openedAt.None?)
    && (b.probing ==> b.state.HalfOpen?)
  }
}

/** The breaker as the program runs it. The clock reading of each call is a parameter. */
module CircuitBreakerClass {
  import opened Domain
  import M = BreakerModel

  class CircuitBreaker {
    const config: M.Config
    var state: M.CircuitState
    var consecutiveFailures: nat
    var openedAt: Option<real>
    var probeInFlight: bool

    function Model(): M.Breaker
      reads this
    {
      M.Breaker(state, consecutiveFailures, openedAt, probeInFlight)
    }

    constructor (failureThreshold: nat, recoveryTimeout: real)
      requires 1 <= failureThreshold && 0.0 < recoveryTimeout
      ensures config == M.Config(failureThreshold, recoveryTimeout) && Model() == M.NEW_BREAKER
    {
      config := M.Config(failureThreshold, recoveryTimeout);
      state, consecutiveFailures, openedAt, probeInFlight := M.Closed, 0, None, false;
    }

    method EffectiveState(now: real) returns (s: M.CircuitState)
      modifies this
      ensures Model() == M.Refresh(config, old(Model()), now) && s == state
    {
      if state.Open? && openedAt.Some? {
        if now - openedAt.value >= config.recovery {
          state, probeInFlight := M.HalfOpen, false;
        }
      }
      s := state;
    }

    method TakeSnapshot(now: real) returns (s: M.Snapshot)
      modifies this
      ensures Model() == M.Refresh(config, old(Model()), now) && s == M.SnapshotOf(config, old(Model()), now)
    {
      var current := EffectiveState(now);
      var retryAfter := 0.0;
      if current.Open? && openedAt.Some? {
        var wait := config.recovery - (now - openedAt.value);
        if wait > 0.0 {
          retryAfter := wait;
        }
      }
      s := M.Snapshot(current, consecutiveFailures, retryAfter);
    }

    method Acquire(now: real) returns (s: M.Snapshot)
      modifies this
      ensures Model() == M.Acquire(config, old(Model()), now) && s == M.Acquired(config, old(Model()), now)
      ensures !s.state.Open? <==> M.Admits(config, old(Model()), now)
    {
      s := TakeSnapshot(now);
      if s.state.HalfOpen? {
        if probeInFlight {
          return M.Snapshot(M.Open, s.failures, config.recovery);
        }
        probeInFlight := true;
      }
    }

    method RecordSuccess()
      modifies this
      ensures Model() == M.Success(old(Model()))
    {
      state, consecutiveFailures, openedAt, probeInFlight := M.Closed, 0, None, false;
    }

    method RecordFailure(now: real)
      modifies this
      ensures Model() == M.Failure(config, old(Model()), now)
    {
      probeInFlight := false;
      consecutiveFailures := consecutiveFailures + 1;
      if state.HalfOpen? || consecutiveFailures >= config.threshold {
        state, openedAt := M.Open, Some(now);
      }
    }
  }
}
