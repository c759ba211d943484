/**
 Concurrent callers of one breaker, as a sequence of timed events. A call that
 was admitted ends by recording a success or a failure, or is cancelled and
 records nothing; failures may also be recorded from outside any call.
 */
module BreakerRuns {
  import opened Domain
  import opened BreakerModel

  datatype Event =
    | Call                 // acquire: admitted or rejected
    | Look                 // a snapshot
    | Succeed
    | Fail
    | Cancel
    | ReportSuccess        // recorded from outside
    | ReportFailure

  datatype Timed = Timed(event: Event, at: real)

  /** The breaker and the number of admitted calls still running. */
  datatype Run = Run(breaker: Breaker, outstanding: nat)

  predicate AdmittedAt(c: Config, r: Run, e: Timed) {
    e.event.Call? && Admits(c, r.breaker, e.at)
  }

  predicate Possible(r: Run, e: Timed) {
    e.event.Succeed? || e.event.Fail? || e.event.Cancel? ==> 0 < r.outstanding
  }

  function Step(c: Config, r: Run, e: Timed): Run
    requires Possible(r, e)
  {
    match e.event
    case Call =>
      Run(Acquire(c, r.breaker, e.at), if Admits(c, r.breaker, e.at) then r.outstanding + 1 else r.outstanding)
    case Look => r.(breaker := Refresh(c, r.breaker, e.at))
    case Succeed => Run(Success(r.breaker), r.outstanding - 1)
    case Fail => Run(Failure(c, r.breaker, e.at), r.outstanding - 1)
    case Cancel => r.(outstanding := r.outstanding - 1)
    case ReportSuccess => r.(breaker := Success(r.breaker))
    case ReportFailure => r.(breaker := Failure(c, r.breaker, e.at))
  }

  ghost predicate IsRun(c: Config, r: Run, events: seq<Timed>)
    decreases |events|
  {
    events == [] || (Possible(r, events[0]) && IsRun(c, Step(c, r, events[0]), events[1..]))
  }

  ghost function After(c: Config, r: Run, events: seq<Timed>): Run
    requires IsRun(c, r, events)
    decreases |events|
  {
    if events == [] then r else After(c, Step(c, r, events[0]), events[1..])
  }

  ghost function CountAdmitted(c: Config, r: Run, events: seq<Timed>): nat
    requires IsRun(c, r, events)
    decreases |events|
  {
    if events == [] then
      0
    else
      (if AdmittedAt(c, r, events[0]) then 1 else 0) + CountAdmitted(c, Step(c, r, events[0]), events[1..])
  }

  function CountCancelled(events: seq<Timed>): nat {
    if events == [] then 0 else (if events[0].event.Cancel? then 1 else 0) + CountCancelled(events[1..])
  }

  /** The clock is monotonic and the run lies in [from, to]. */
  ghost predicate Within(events: seq<Timed>, from: real, to: real)
    decreases |events|
  {
    from <= to && (events == [] || (from <= events[0].at <= to && Within(events[1..], events[0].at, to)))
  }

  /** At most `limit` calls are ever outstanding. */
  ghost predicate Limited(c: Config, r: Run, events: seq<Timed>, limit: nat)
    requires IsRun(c, r, events)
    decreases |events|
  {
    r.outstanding <= limit && (events == [] || Limited(c, Step(c, r, events[0]), events[1..], limit))
  }

  ghost predicate NoSuccess(events: seq<Timed>) {
    forall e :: e in events ==> !e.event.Succeed? && !e.event.ReportSuccess?
  }

  // The invariant

  lemma StepConsistent(c: Config, r: Run, e: Timed)
    requires ValidConfig(c) && Consistent(c, r.breaker) && Possible(r, e)
    ensures Consistent(c, Step(c, r, e).breaker)
  {
  }

  /** The last failure recorded since the last success, if there is one. */
  function LastFailure(events: seq<Timed>): Option<real> {
    if events == [] then
      None
    else
      match events[|events| - 1].event
      case Fail => Some(events[|events| - 1].at)
      case ReportFailure => Some(events[|events| - 1].at)
      case Succeed => None
      case ReportSuccess => None
      case _ => LastFailure(events[..|events| - 1])
  }

  /** How many failures were recorded since the last success. */
  function FailuresSince(events: seq<Timed>): nat {
    if events == [] then
      0
    else
      match events[|events| - 1].event
      case Fail => FailuresSince(events[..|events| - 1]) + 1
      case ReportFailure => FailuresSince(events[..|events| - 1]) + 1
      case Succeed => 0
      case ReportSuccess => 0
      case _ => FailuresSince(events[..|events| - 1])
  }

  lemma {:induction false} RunUpTo(c: Config, r: Run, events: seq<Timed>)
    requires IsRun(c, r, events) && events != []
    ensures var front, last := events[..|events| - 1], events[|events| - 1];
            && IsRun(c, r, front) && Possible(After(c, r, front), last)
            && After(c, r, events) == Step(c, After(c, r, front), last)
    decreases |events|
  {
    if |events| > 1 {
      RunUpTo(c, Step(c, r, events[0]), events[1..]);
      assert events[1..][..|events| - 2] == events[..|events| - 1][1..];
    } else {
      assert events[1..] == [] && events[..0] == [];
    }
  }

  /**
   Over every interleaving of callers, stragglers, cancellations and snapshots:
   the circuit is closed exactly while fewer than `threshold` failures were
   recorded since the last success, and otherwise it remembers the last of them.
   */
  lemma {:induction false} StateFollowsFailures(c: Config, events: seq<Timed>)
    requires ValidConfig(c) && IsRun(c, Run(NEW_BREAKER, 0), events)
    ensures var b := After(c, Run(NEW_BREAKER, 0), events).breaker;
            && Consistent(c, b)
            && b.failures == FailuresSince(events)
            && (b.state.Closed? <==> FailuresSince(events) < c.threshold)
            && (!b.state.Closed? ==> b.openedAt == LastFailure(events))
  {
    if events != [] {
      var front, last := events[..|events| - 1], events[|events| - 1];
      RunUpTo(c, Run(NEW_BREAKER, 0), events);
      StateFollowsFailures(c, front);
      StepConsistent(c, After(c, Run(NEW_BREAKER, 0), front), last);
    }
  }

  // Half-open epochs

  /** No outcome is recorded. */
  ghost predicate NothingRecorded(events: seq<Timed>) {
    forall e :: e in events ==> e.event.Call? || e.event.Look? || e.event.Cancel?
  }

  /** Every call the run admits comes at `earliest` or later. */
  ghost predicate AdmitsFrom(c: Config, r: Run, events: seq<Timed>, earliest: real)
    requires IsRun(c, r, events)
    decreases |events|
  {
    events == [] ||
    ((AdmittedAt(c, r, events[0]) ==> events[0].at >= earliest)
     && AdmitsFrom(c, Step(c, r, events[0]), events[1..], earliest))
  }

  /** Once a probe is out, nothing more is admitted until an outcome is recorded. */
  lemma {:induction false} ProbingAdmitsNothing(c: Config, r: Run, events: seq<Timed>)
    requires r.breaker.state.HalfOpen? && r.breaker.probing
    requires IsRun(c, r, events) && NothingRecorded(events)
    ensures CountAdmitted(c, r, events) == 0
    ensures forall earliest :: AdmitsFrom(c, r, events, earliest)
    ensures var b := After(c, r, events).breaker; b.state.HalfOpen? && b.probing
    decreases |events|
  {
    if events != [] {
      assert events[0] in events && forall e :: e in events[1..] ==> e in events;
      ProbingAdmitsNothing(c, Step(c, r, events[0]), events[1..]);
    }
  }

  /** What a caller is told: how many failures there were, and if it is turned away, how long to wait. */
  lemma AcquisitionTells(c: Config, b: Breaker, now: real)
    requires ValidConfig(c) && Consistent(c, b)
    ensures var s := Acquired(c, b, now);
            && s.failures == b.failures
            && (s.state.Closed? <==> b.state.Closed?)
            && (s.state.Open? <==> b.probing || (b.state.Open? && now - b.openedAt.value < c.recovery))
            && s.retryAfter == (if b.probing then c.recovery
                                else if s.state.Open? then c.recovery - (now - b.openedAt.value)
                                else 0.0)
  {
  }

  /** The wait that an open circuit reports is exact: a call is admitted that much later, and not before. */
  lemma RetryAfterIsExact(c: Config, b: Breaker, now: real, later: real)
    requires ValidConfig(c) && Consistent(c, b) && Refresh(c, b, now).state.Open? && now <= later
    ensures Admits(c, Refresh(c, b, now), later) <==> later >= now + SnapshotOf(c, b, now).retryAfter
  {
  }

  /** A half-open circuit whose probe is not out yet. */
  lemma {:induction false} ReadyAdmitsOne(c: Config, r: Run, events: seq<Timed>, from: real, to: real, earliest: real)
    requires r.breaker.state.HalfOpen? && IsRun(c, r, events) && NothingRecorded(events)
    requires Within(events, from, to) && earliest <= from
    ensures CountAdmitted(c, r, events) <= 1 && AdmitsFrom(c, r, events, earliest)
    decreases |events|
  {
    if events != [] {
      assert events[0] in events && forall e :: e in events[1..] ==> e in events;
      var next := Step(c, r, events[0]);
      if next.breaker.probing {
        ProbingAdmitsNothing(c, next, events[1..]);
      } else {
        ReadyAdmitsOne(c, next, events[1..], events[0].at, to, earliest);
      }
    }
  }

  /**
   Between two recorded outcomes a circuit that has opened admits at most one
   call, and never earlier than the recovery timeout after the last failure.
   */
  lemma {:induction false} OneProbeAnEpoch(c: Config, r: Run, events: seq<Timed>, from: real, to: real)
    requires ValidConfig(c) && Consistent(c, r.breaker) && r.breaker.state.Open?
    requires IsRun(c, r, events) && NothingRecorded(events) && Within(events, from, to)
    ensures CountAdmitted(c, r, events) <= 1
    ensures AdmitsFrom(c, r, events, r.breaker.openedAt.value + c.recovery)
    decreases |events|
  {
    if events != [] {
      assert events[0] in events && forall e :: e in events[1..] ==> e in events;
      var next := Step(c, r, events[0]);
      if next.breaker.state.Open? {
        OneProbeAnEpoch(c, next, events[1..], events[0].at, to);
      } else if next.breaker.probing {
        ProbingAdmitsNothing(c, next, events[1..]);
      } else {
        ReadyAdmitsOne(c, next, events[1..], events[0].at, to, r.breaker.openedAt.value + c.recovery);
      }
    }
  }

  // After a probe

  ghost predicate SuccessRecorded(events: seq<Timed>) {
    exists e :: e in events && (e.event.Succeed? || e.event.ReportSuccess?)
  }

  /**
   What was recorded since the probe admits a call at `later`: a success that
   fewer than `threshold` failures followed, or a failure at least a recovery
   timeout ago.
   */
  ghost predicate Readmits(c: Config, events: seq<Timed>, later: real) {
    || (SuccessRecorded(events) && FailuresSince(events) < c.threshold)
    || (LastFailure(events).Some? && later - LastFailure(events).value >= c.recovery)
  }

  /** The breaker since a probe was let through, while nothing more is. */
  ghost predicate SinceProbe(c: Config, b: Breaker, events: seq<Timed>, now: real) {
    && Consistent(c, b)
    && (NothingRecorded(events) <==> !SuccessRecorded(events) && LastFailure(events).None?)
    && (NothingRecorded(events) ==> b.state.HalfOpen? && b.probing)
    && (b.state.Closed? <==> SuccessRecorded(events) && FailuresSince(events) < c.threshold)
    && (b.state.Closed? ==> b.failures == FailuresSince(events))
    && (!NothingRecorded(events) && !b.state.Closed? ==> b.openedAt == LastFailure(events) && !b.probing)
    && (SuccessRecorded(events) && !b.state.Closed? ==> FailuresSince(events) >= c.threshold)
    && (!NothingRecorded(events) && b.state.HalfOpen? ==> now - b.openedAt.value >= c.recovery)
    && (LastFailure(events).None? <==> FailuresSince(events) == 0)
  }

  lemma RecordedUpTo(events: seq<Timed>)
    requires events != []
    ensures var front, e := events[..|events| - 1], events[|events| - 1].event;
            && (NothingRecorded(events) <==> NothingRecorded(front) && (e.Call? || e.Look? || e.Cancel?))
            && (SuccessRecorded(events) <==> SuccessRecorded(front) || e.Succeed? || e.ReportSuccess?)
  {
    var front, last := events[..|events| - 1], events[|events| - 1];
    assert events == front + [last];
  }

  lemma {:induction false} SinceProbeRun(c: Config, r: Run, events: seq<Timed>, from: real, to: real)
    requires ValidConfig(c) && Consistent(c, r.breaker) && r.breaker.state.HalfOpen? && r.breaker.probing
    requires IsRun(c, r, events) && Within(events, from, to) && CountAdmitted(c, r, events) == 0
    ensures SinceProbe(c, After(c, r, events).breaker, events, if events == [] then from else events[|events| - 1].at)
    decreases |events|
  {
    if events != [] {
      var front, last := events[..|events| - 1], events[|events| - 1];
      RunUpTo(c, r, events);
      CountUpTo(c, r, events);
      WithinUpTo(events, from, to);
      SinceProbeRun(c, r, front, from, to);
      RecordedUpTo(events);
      SinceProbeStep(c, After(c, r, front), front, last, if front == [] then from else front[|front| - 1].at);
      assert events == front + [last];
    }
  }

  lemma SinceProbeStep(c: Config, r: Run, front: seq<Timed>, e: Timed, now: real)
    requires ValidConfig(c) && SinceProbe(c, r.breaker, front, now) && now <= e.at
    requires Possible(r, e) && !AdmittedAt(c, r, e)
    ensures SinceProbe(c, Step(c, r, e).breaker, front + [e], e.at)
  {
    RecordedUpTo(front + [e]);
    assert (front + [e])[..|front|] == front;
  }

  lemma {:induction false} CountUpTo(c: Config, r: Run, events: seq<Timed>)
    requires events != [] && IsRun(c, r, events) && CountAdmitted(c, r, events) == 0
    ensures var front, last := events[..|events| - 1], events[|events| - 1];
            && IsRun(c, r, front) && CountAdmitted(c, r, front) == 0
            && !AdmittedAt(c, After(c, r, front), last)
    decreases |events|
  {
    if |events| > 1 {
      CountUpTo(c, Step(c, r, events[0]), events[1..]);
      assert events[1..][..|events| - 2] == events[..|events| - 1][1..];
    } else {
      assert events[..0] == [];
    }
  }

  lemma {:induction false} WithinUpTo(events: seq<Timed>, from: real, to: real)
    requires events != [] && Within(events, from, to)
    ensures var n := |events|;
            && Within(events[..n - 1], from, to) && events[n - 1].at <= to
            && (if n == 1 then from else events[n - 2].at) <= events[n - 1].at
    decreases |events|
  {
    if |events| > 1 {
      WithinUpTo(events[1..], events[0].at, to);
      assert events[1..][..|events| - 2] == events[..|events| - 1][1..];
    } else {
      assert events[..0] == [];
    }
  }

  /**
   After a probe, whatever happens to it, the next call is admitted exactly when an
   outcome recorded since then admits it; if none was recorded it never is.
   */
  lemma {:induction false} NextAdmission(c: Config, r: Run, events: seq<Timed>, from: real, to: real, later: real)
    requires ValidConfig(c) && Consistent(c, r.breaker) && r.breaker.state.HalfOpen? && r.breaker.probing
    requires IsRun(c, r, events) && Within(events, from, to) && CountAdmitted(c, r, events) == 0 && to <= later
    ensures Admits(c, After(c, r, events).breaker, later) <==> Readmits(c, events, later)
    ensures NothingRecorded(events) ==> !Admits(c, After(c, r, events).breaker, later)
  {
    SinceProbeRun(c, r, events, from, to);
    if events != [] { WithinUpTo(events, from, to); }
  }

  /**
   A cancelled probe wedges the circuit: with no call left running and nothing
   reported from outside, no later call is ever admitted, however long one waits.
   */
  lemma {:induction false} CancelledProbeWedges(c: Config, r: Run, cancel: Timed, events: seq<Timed>)
    requires r.breaker.state.HalfOpen? && r.breaker.probing && r.outstanding == 1 && cancel.event.Cancel?
    requires IsRun(c, Step(c, r, cancel), events)
    requires forall e :: e in events ==> !e.event.ReportSuccess? && !e.event.ReportFailure?
    ensures CountAdmitted(c, Step(c, r, cancel), events) == 0
    ensures var b := After(c, Step(c, r, cancel), events).breaker; b.state.HalfOpen? && b.probing
  {
    WedgedStaysWedged(c, Step(c, r, cancel), events);
  }

  lemma {:induction false} WedgedStaysWedged(c: Config, r: Run, events: seq<Timed>)
    requires r.breaker.state.HalfOpen? && r.breaker.probing && r.outstanding == 0 && IsRun(c, r, events)
    requires forall e :: e in events ==> !e.event.ReportSuccess? && !e.event.ReportFailure?
    ensures CountAdmitted(c, r, events) == 0
    ensures var b := After(c, r, events).breaker; b.state.HalfOpen? && b.probing
    decreases |events|
  {
    if events != [] {
      assert events[0] in events && forall e :: e in events[1..] ==> e in events;
      WedgedStaysWedged(c, Step(c, r, events[0]), events[1..]);
    }
  }

  /** Failures at one time, one below the threshold after another. */
  function Failures(n: nat, at: real): seq<Timed> {
    if n == 0 then [] else Failures(n - 1, at) + [Timed(Call, at)] + [Timed(Fail, at)]
  }

  lemma {:induction false} OneMoreEvent(c: Config, r: Run, events: seq<Timed>, e: Timed)
    requires IsRun(c, r, events) && Possible(After(c, r, events), e)
    ensures IsRun(c, r, events + [e]) && After(c, r, events + [e]) == Step(c, After(c, r, events), e)
    decreases |events|
  {
    if events == [] {
      assert [e][1..] == [];
    } else {
      OneMoreEvent(c, Step(c, r, events[0]), events[1..], e);
      assert (events + [e])[1..] == events[1..] + [e];
    }
  }

  lemma {:induction false} FailuresRun(c: Config, n: nat, at: real)
    requires ValidConfig(c) && n <= c.threshold
    ensures IsRun(c, Run(NEW_BREAKER, 0), Failures(n, at))
    ensures After(c, Run(NEW_BREAKER, 0), Failures(n, at))
         == Run(if n < c.threshold then Breaker(Closed, n, None, false) else Breaker(Open, n, Some(at), false), 0)
  {
    if n > 0 {
      FailuresRun(c, n - 1, at);
      OneMoreEvent(c, Run(NEW_BREAKER, 0), Failures(n - 1, at), Timed(Call, at));
      OneMoreEvent(c, Run(NEW_BREAKER, 0), Failures(n - 1, at) + [Timed(Call, at)], Timed(Fail, at));
    }
  }

  /**
   Every breaker can be wedged from the start: let calls fail up to the threshold,
   wait for the recovery timeout, let one probe through and cancel it.
   */
  lemma WedgeIsReachable(c: Config) returns (events: seq<Timed>)
    requires ValidConfig(c)
    ensures events == Failures(c.threshold, 0.0) + [Timed(Call, c.recovery)] + [Timed(Cancel, c.recovery)]
    ensures IsRun(c, Run(NEW_BREAKER, 0), events)
    ensures var r := After(c, Run(NEW_BREAKER, 0), events);
            r.breaker.state.HalfOpen? && r.breaker.probing && r.outstanding == 0 && Consistent(c, r.breaker)
  {
    FailuresRun(c, c.threshold, 0.0);
    events := Failures(c.threshold, 0.0) + [Timed(Call, c.recovery)];
    OneMoreEvent(c, Run(NEW_BREAKER, 0), Failures(c.threshold, 0.0), Timed(Call, c.recovery));
    OneMoreEvent(c, Run(NEW_BREAKER, 0), events, Timed(Cancel, c.recovery));
    events := events + [Timed(Cancel, c.recovery)];
  }
}
