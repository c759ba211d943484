/** The admission bound: how many calls a breaker lets through while nothing succeeds. */
module AdmissionBound {
  import opened Domain
  import opened BreakerModel
  import opened BreakerRuns

  /** How often a recovery timeout fits into a stretch of time. */
  function Fits(length: real, recovery: real): (n: nat)
    requires 0.0 < recovery && 0.0 <= length
    ensures n == (length / recovery).Floor
    decreases length / recovery
  {
    QuotientBelowOne(length, recovery);
    OneTimeoutLess(length, recovery);
    if length < recovery then 0 else Fits(length - recovery, recovery) + 1
  }

  lemma QuotientBelowOne(length: real, recovery: real)
    requires 0.0 < recovery && 0.0 <= length
    ensures 0.0 <= length / recovery
    ensures length < recovery <==> length / recovery < 1.0
  {
    var q := length / recovery;
    assert q * recovery == length;
    if 1.0 <= q { ProductAtLeast(q, recovery); }
  }

  lemma ProductAtLeast(q: real, recovery: real)
    requires 1.0 <= q && 0.0 < recovery
    ensures recovery <= q * recovery
  {
  }

  lemma OneTimeoutLess(length: real, recovery: real)
    requires 0.0 < recovery
    ensures (length - recovery) / recovery == length / recovery - 1.0
  {
    var q, p := length / recovery, (length - recovery) / recovery;
    assert q * recovery == length && p * recovery == length - recovery;
    SameFactor(q - 1.0, p, recovery);
  }

  lemma SameFactor(a: real, b: real, r: real)
    requires r != 0.0 && a * r == b * r
    ensures a == b
  {
  }

  lemma {:induction false} FitsMonotone(a: real, b: real, recovery: real)
    requires 0.0 < recovery && 0.0 <= a <= b
    ensures Fits(a, recovery) <= Fits(b, recovery)
    decreases Fits(a, recovery)
  {
    if recovery <= a { FitsMonotone(a - recovery, b - recovery, recovery); }
  }

  /** When a circuit that is not closed can next admit a call. */
  function Earliest(c: Config, b: Breaker, now: real): real
    requires b.openedAt.Some?
  {
    if b.state.HalfOpen? && b.probing then
      now + c.recovery
    else
      var ready := b.openedAt.value + c.recovery;
      if b.state.HalfOpen? || ready < now then now else ready
  }

  /** Calls that can still be admitted until `to`, at one a recovery timeout from `from` on. */
  function Probes(c: Config, from: real, to: real): nat
    requires 0.0 < c.recovery
  {
    if to < from then 0 else Fits(to - from, c.recovery) + 1
  }

  /** The circuit did not open later than now. */
  predicate OpenedBy(b: Breaker, now: real) {
    b.openedAt.Some? ==> b.openedAt.value <= now
  }

  /** What the breaker can still admit in [now, to], given how many calls are running. */
  function Budget(c: Config, r: Run, limit: nat, now: real, to: real): int
    requires 0.0 < c.recovery && now <= to && Consistent(c, r.breaker)
  {
    if r.breaker.state.Closed? then
      (c.threshold - 1 - r.breaker.failures) + (limit - r.outstanding) + Fits(to - now, c.recovery)
    else
      Probes(c, Earliest(c, r.breaker, now), to)
  }

  lemma ProbesMonotone(c: Config, a: real, b: real, to: real)
    requires 0.0 < c.recovery && a <= b
    ensures Probes(c, b, to) <= Probes(c, a, to)
  {
    if b <= to { FitsMonotone(to - b, to - a, c.recovery); }
  }

  lemma ProbesAfterRecovery(c: Config, a: real, to: real)
    requires 0.0 < c.recovery && a <= to
    ensures Probes(c, a + c.recovery, to) == Fits(to - a, c.recovery)
  {
    if a + c.recovery <= to {
      assert to - (a + c.recovery) == (to - a) - c.recovery;
    }
  }

  /** Waiting costs budget, if anything. */
  lemma WaitingKeepsBudget(c: Config, r: Run, limit: nat, now: real, later: real, to: real)
    requires ValidConfig(c) && Consistent(c, r.breaker) && now <= later <= to
    ensures Budget(c, r, limit, later, to) <= Budget(c, r, limit, now, to)
  {
    if r.breaker.state.Closed? {
      FitsMonotone(to - later, to - now, c.recovery);
    } else {
      ProbesMonotone(c, Earliest(c, r.breaker, now), Earliest(c, r.breaker, later), to);
    }
  }

  /** A step pays for the call it admits; only a cancellation adds to the budget, and it adds one. */
  lemma StepPays(c: Config, r: Run, e: Timed, limit: nat, to: real)
    requires ValidConfig(c) && Consistent(c, r.breaker) && Possible(r, e) && e.at <= to
    requires !e.event.Succeed? && !e.event.ReportSuccess?
    requires OpenedBy(r.breaker, e.at)
    requires r.outstanding <= limit && Step(c, r, e).outstanding <= limit
    ensures OpenedBy(Step(c, r, e).breaker, e.at) && Consistent(c, Step(c, r, e).breaker)
    ensures (if AdmittedAt(c, r, e) then 1 else 0) + Budget(c, Step(c, r, e), limit, e.at, to)
         <= Budget(c, r, limit, e.at, to) + (if e.event.Cancel? then 1 else 0)
  {
    StepConsistent(c, r, e);
    match e.event
    case Fail => FailurePays(c, r, e, limit, to);
    case ReportFailure => FailurePays(c, r, e, limit, to);
    case Call =>
      if !r.breaker.state.Closed? && AdmittedAt(c, r, e) { ProbesAfterRecovery(c, e.at, to); }
    case _ =>
  }

  /** A failure that opens the circuit leaves at most the probes of the time that remains. */
  lemma FailurePays(c: Config, r: Run, e: Timed, limit: nat, to: real)
    requires ValidConfig(c) && Consistent(c, r.breaker) && Possible(r, e) && e.at <= to
    requires (e.event.Fail? || e.event.ReportFailure?) && r.outstanding <= limit && OpenedBy(r.breaker, e.at)
    ensures Consistent(c, Step(c, r, e).breaker)
    ensures Budget(c, Step(c, r, e), limit, e.at, to) <= Budget(c, r, limit, e.at, to)
  {
    ProbesAfterRecovery(c, e.at, to);
    if !r.breaker.state.Closed? {
      ProbesMonotone(c, Earliest(c, r.breaker, e.at), e.at + c.recovery, to);
    }
  }

  lemma {:induction false} AdmittedWithinBudget(c: Config, r: Run, events: seq<Timed>, limit: nat, from: real, to: real)
    requires ValidConfig(c) && Consistent(c, r.breaker) && OpenedBy(r.breaker, from)
    requires IsRun(c, r, events) && NoSuccess(events) && Within(events, from, to) && Limited(c, r, events, limit)
    ensures CountAdmitted(c, r, events) <= Budget(c, r, limit, from, to) + CountCancelled(events)
    decreases |events|
  {
    if events == [] {
    } else {
      var e := events[0];
      assert e in events && forall x :: x in events[1..] ==> x in events;
      WaitingKeepsBudget(c, r, limit, from, e.at, to);
      StepPays(c, r, e, limit, to);
      AdmittedWithinBudget(c, Step(c, r, e), events[1..], limit, e.at, to);
    }
  }

  /**
   While no call succeeds and at most `limit` calls run at once, a breaker in any
   consistent state admits at most `threshold - 1 + limit + T / recovery` calls in
   a stretch of length T, plus one for each call that was cancelled.
   */
  lemma AdmissionIsBounded(c: Config, r: Run, events: seq<Timed>, limit: nat, from: real, to: real)
    requires ValidConfig(c) && Consistent(c, r.breaker) && OpenedBy(r.breaker, from)
    requires IsRun(c, r, events) && NoSuccess(events) && Within(events, from, to) && Limited(c, r, events, limit)
    requires 1 <= limit
    ensures CountAdmitted(c, r, events)
         <= c.threshold - 1 + limit + Fits(to - from, c.recovery) + CountCancelled(events)
  {
    AdmittedWithinBudget(c, r, events, limit, from, to);
    if !r.breaker.state.Closed? {
      ProbesMonotone(c, from, Earliest(c, r.breaker, from), to);
    }
  }

  // The bound is attained

  /** A run without successes, within the limit and the stretch of time, with these counts. */
  ghost predicate Admitting(
    c: Config, r: Run, events: seq<Timed>, limit: nat, from: real, to: real, admitted: nat, cancelled: nat)
  {
    && IsRun(c, r, events) && NoSuccess(events) && Within(events, from, to) && Limited(c, r, events, limit)
    && CountAdmitted(c, r, events) == admitted && CountCancelled(events) == cancelled
  }

  lemma Prepend(
    c: Config, r: Run, e: Timed, rest: seq<Timed>, limit: nat, from: real, to: real, admitted: nat, cancelled: nat)
    requires Possible(r, e) && r.outstanding <= limit && from <= e.at && !e.event.Succeed? && !e.event.ReportSuccess?
    requires Admitting(c, Step(c, r, e), rest, limit, e.at, to, admitted, cancelled)
    ensures Admitting(c, r, [e] + rest, limit, from, to, admitted + (if AdmittedAt(c, r, e) then 1 else 0),
                      cancelled + (if e.event.Cancel? then 1 else 0))
  {
    assert ([e] + rest)[1..] == rest;
  }

  /** An open circuit without running calls: one failing probe a recovery timeout. */
  lemma {:induction false} ProbesFail(c: Config, failures: nat, limit: nat, from: real, to: real)
    returns (events: seq<Timed>)
    requires ValidConfig(c) && c.threshold <= failures && 1 <= limit && from <= to
    ensures Admitting(c, Run(Breaker(Open, failures, Some(from), false), 0), events, limit, from, to,
                      Fits(to - from, c.recovery), 0)
    decreases Fits(to - from, c.recovery)
  {
    events := [];
    if c.recovery <= to - from {
      var r, at := Run(Breaker(Open, failures, Some(from), false), 0), from + c.recovery;
      assert to - at == (to - from) - c.recovery;
      var rest := ProbesFail(c, failures + 1, limit, at, to);
      var n := Fits(to - at, c.recovery);
      Prepend(c, Step(c, r, Timed(Call, at)), Timed(Fail, at), rest, limit, at, to, n, 0);
      Prepend(c, r, Timed(Call, at), [Timed(Fail, at)] + rest, limit, from, to, n, 0);
      events := [Timed(Call, at)] + ([Timed(Fail, at)] + rest);
    }
  }

  /** The running calls fail one after the other. */
  lemma {:induction false} AllFail(c: Config, failures: nat, running: nat, limit: nat, from: real, to: real)
    returns (events: seq<Timed>)
    requires ValidConfig(c) && c.threshold <= failures && running <= limit && 1 <= limit && from <= to
    ensures Admitting(c, Run(Breaker(Open, failures, Some(from), false), running), events, limit, from, to,
                      Fits(to - from, c.recovery), 0)
    decreases running
  {
    if running == 0 {
      events := ProbesFail(c, failures, limit, from, to);
    } else {
      var r, e := Run(Breaker(Open, failures, Some(from), false), running), Timed(Fail, from);
      var rest := AllFail(c, failures + 1, running - 1, limit, from, to);
      Prepend(c, r, e, rest, limit, from, to, Fits(to - from, c.recovery), 0);
      events := [e] + rest;
    }
  }

  /** One failure short of opening, as many calls are let in as may run at once. */
  lemma {:induction false} FillUp(c: Config, running: nat, limit: nat, from: real, to: real)
    returns (events: seq<Timed>)
    requires ValidConfig(c) && running <= limit && 1 <= limit && from <= to
    ensures Admitting(c, Run(Breaker(Closed, c.threshold - 1, None, false), running), events, limit, from, to,
                      limit - running + Fits(to - from, c.recovery), 0)
    decreases limit - running
  {
    var r, n := Run(Breaker(Closed, c.threshold - 1, None, false), running), Fits(to - from, c.recovery);
    if running == limit {
      var rest := AllFail(c, c.threshold, running - 1, limit, from, to);
      Prepend(c, r, Timed(Fail, from), rest, limit, from, to, n, 0);
      events := [Timed(Fail, from)] + rest;
    } else {
      var rest := FillUp(c, running + 1, limit, from, to);
      Prepend(c, r, Timed(Call, from), rest, limit, from, to, limit - (running + 1) + n, 0);
      events := [Timed(Call, from)] + rest;
    }
  }

  /** A call that fails, until one failure is missing. */
  lemma {:induction false} FailUp(c: Config, failures: nat, limit: nat, from: real, to: real)
    returns (events: seq<Timed>)
    requires ValidConfig(c) && failures < c.threshold && 1 <= limit && from <= to
    ensures Admitting(c, Run(Breaker(Closed, failures, None, false), 0), events, limit, from, to,
                      c.threshold - 1 - failures + limit + Fits(to - from, c.recovery), 0)
    decreases c.threshold - failures
  {
    if failures == c.threshold - 1 {
      events := FillUp(c, 0, limit, from, to);
    } else {
      var r := Run(Breaker(Closed, failures, None, false), 0);
      var n := c.threshold - 2 - failures + limit + Fits(to - from, c.recovery);
      var rest := FailUp(c, failures + 1, limit, from, to);
      Prepend(c, Step(c, r, Timed(Call, from)), Timed(Fail, from), rest, limit, from, to, n, 0);
      Prepend(c, r, Timed(Call, from), [Timed(Fail, from)] + rest, limit, from, to, n, 0);
      events := [Timed(Call, from)] + ([Timed(Fail, from)] + rest);
    }
  }

  /**
   The bound cannot be lowered: a new breaker can admit that many calls, for every
   limit, every stretch of time and every number of cancellations.
   */
  lemma {:induction false} BoundIsAttained(c: Config, cancelled: nat, limit: nat, from: real, to: real)
    returns (events: seq<Timed>)
    requires ValidConfig(c) && 1 <= limit && from <= to
    ensures IsRun(c, Run(NEW_BREAKER, 0), events) && NoSuccess(events) && Within(events, from, to)
    ensures Limited(c, Run(NEW_BREAKER, 0), events, limit) && CountCancelled(events) == cancelled
    ensures CountAdmitted(c, Run(NEW_BREAKER, 0), events)
         == c.threshold - 1 + limit + Fits(to - from, c.recovery) + CountCancelled(events)
    decreases cancelled
  {
    if cancelled == 0 {
      events := FailUp(c, 0, limit, from, to);
    } else {
      var r := Run(NEW_BREAKER, 0);
      var rest := BoundIsAttained(c, cancelled - 1, limit, from, to);
      var n := CountAdmitted(c, r, rest);
      Prepend(c, Step(c, r, Timed(Call, from)), Timed(Cancel, from), rest, limit, from, to, n, cancelled - 1);
      Prepend(c, r, Timed(Call, from), [Timed(Cancel, from)] + rest, limit, from, to, n, cancelled);
      events := [Timed(Call, from)] + ([Timed(Cancel, from)] + rest);
    }
  }
}
