/** The circuit breaker (`aiswarm/resilience/circuit_breaker.py`) with an explicit clock. */
module CircuitBreakers {
  import opened Common

  datatype Phase = Closed | Open | HalfOpen

  datatype Config = Config(failureThreshold: int, recoveryTimeout: real)

  datatype Breaker = Breaker(
    phase: Phase,
    failureCount: nat,
    successCount: nat,
    lastFailure: Option<real>,
    lastSuccess: Option<real>,
    totalCalls: nat,
    totalRejections: nat
  )

  const FRESH := Breaker(Closed, 0, 0, None, None, 0, 0)

  // ------------------------------------------------------------------
  // One call
  // ------------------------------------------------------------------

  /** What happens at a breaker. `Observe` stands for reading `state` or `stats`. */
  datatype Event =
    | Request(at: real)
    | Success(at: real)
    | Failure(at: real)
    | Observe(at: real)
    | Reset(at: real)

  /** The lazy move from open to half-open. It happens only when somebody looks. */
  function Look(cfg: Config, b: Breaker, now: real): Breaker {
    if b.phase.Open? && b.lastFailure.Some? && now - b.lastFailure.value >= cfg.recoveryTimeout
    then b.(phase := HalfOpen) else b
  }

  predicate Allows(cfg: Config, b: Breaker, now: real) {
    !Look(cfg, b, now).phase.Open?
  }

  function Step(cfg: Config, b: Breaker, e: Event): Breaker {
    match e
    case Request(now) =>
      var seen := Look(cfg, b, now);
      if seen.phase.Open? then seen.(totalRejections := seen.totalRejections + 1) else seen
    case Success(now) =>
      var counted := b.(successCount := b.successCount + 1, totalCalls := b.totalCalls + 1, lastSuccess := Some(now));
      if b.phase.HalfOpen? then counted.(phase := Closed, failureCount := 0) else counted
    case Failure(now) =>
      var counted := b.(failureCount := b.failureCount + 1, totalCalls := b.totalCalls + 1, lastFailure := Some(now));
      if b.phase.HalfOpen? || (b.phase.Closed? && counted.failureCount >= cfg.failureThreshold)
      then counted.(phase := Open) else counted
    case Observe(now) => Look(cfg, b, now)
    case Reset(_) => b.(phase := Closed, failureCount := 0)
  }

  function Run(cfg: Config, trace: seq<Event>): Breaker {
    if trace == [] then FRESH else Step(cfg, Run(cfg, trace[..|trace| - 1]), trace[|trace| - 1])
  }

  // ------------------------------------------------------------------
  // The same breaker, read off its timed trace
  // ------------------------------------------------------------------

  function Failures(events: seq<Event>): nat {
    if events == [] then 0
    else Failures(events[..|events| - 1]) + (if events[|events| - 1].Failure? then 1 else 0)
  }

  function LatestFailure(events: seq<Event>): Option<real> {
    if events == [] then None
    else if events[|events| - 1].Failure? then Some(events[|events| - 1].at)
    else LatestFailure(events[..|events| - 1])
  }

  /** Enough failures to open the breaker; the first failure is always needed. */
  predicate Tripped(cfg: Config, events: seq<Event>) {
    Failures(events) >= 1 && Failures(events) >= cfg.failureThreshold
  }

  /** Somebody looked at position `j`, late enough after the failure that was then the latest. */
  predicate LookedLate(cfg: Config, events: seq<Event>, j: nat)
    requires j < |events|
  {
    && (events[j].Request? || events[j].Observe?)
    && LatestFailure(events[..j]).Some?
    && events[j].at - LatestFailure(events[..j]).value >= cfg.recoveryTimeout
  }

  /** Tripped, and looked at late, with no failure since that look. */
  ghost predicate Probing(cfg: Config, events: seq<Event>) {
    Tripped(cfg, events) &&
    exists j :: 0 <= j < |events| && LookedLate(cfg, events, j) && Failures(events[..j]) == Failures(events)
  }

  /** The events since the breaker last closed: by a reset, or by a success while probing. */
  ghost function SinceClose(cfg: Config, trace: seq<Event>): seq<Event> {
    if trace == [] then []
    else
      var before, last := SinceClose(cfg, trace[..|trace| - 1]), trace[|trace| - 1];
      if last.Reset? || (last.Success? && Probing(cfg, before)) then [] else before + [last]
  }

  ghost function PhaseOf(cfg: Config, events: seq<Event>): Phase {
    if !Tripped(cfg, events) then Closed else if Probing(cfg, events) then HalfOpen else Open
  }

  lemma CountAppend(events: seq<Event>, e: Event)
    ensures Failures(events + [e]) == Failures(events) + (if e.Failure? then 1 else 0)
    ensures LatestFailure(events + [e]) == if e.Failure? then Some(e.at) else LatestFailure(events)
  {
  }

  lemma {:induction false} FailuresMonotone(events: seq<Event>, j: nat)
    requires j <= |events|
    ensures Failures(events[..j]) <= Failures(events)
    ensures Failures(events) > 0 <==> LatestFailure(events).Some?
  {
    if j < |events| {
      var before := events[..|events| - 1];
      FailuresMonotone(before, j);
      assert before[..j] == events[..j];
    } else {
      assert events[..j] == events;
      if events != [] { FailuresMonotone(events[..|events| - 1], 0); }
    }
  }

  /** How one more event changes whether the breaker is probing. */
  lemma ProbingAppend(cfg: Config, events: seq<Event>, e: Event)
    ensures Probing(cfg, events + [e]) <==>
              && !e.Failure? && Tripped(cfg, events)
              && (Probing(cfg, events) || LookedLate(cfg, events + [e], |events|))
  {
    var longer := events + [e];
    CountAppend(events, e);
    FailuresMonotone(events, |events|);
    assert longer[..|events|] == events;
    if Probing(cfg, longer) {
      var j :| 0 <= j < |longer| && LookedLate(cfg, longer, j) && Failures(longer[..j]) == Failures(longer);
      if j < |events| {
        assert longer[..j] == events[..j] && longer[j] == events[j];
        FailuresMonotone(events, j);
        assert LookedLate(cfg, events, j);
      }
    }
    if !e.Failure? && Probing(cfg, events) {
      var j :| 0 <= j < |events| && LookedLate(cfg, events, j) && Failures(events[..j]) == Failures(events);
      assert longer[..j] == events[..j] && longer[j] == events[j];
      assert LookedLate(cfg, longer, j);
    }
  }

  /** The part of the breaker that decides requests, as the trace since the last close dictates it. */
  ghost predicate Explained(cfg: Config, b: Breaker, events: seq<Event>) {
    && b.failureCount == Failures(events)
    && b.phase == PhaseOf(cfg, events)
    && (LatestFailure(events).Some? ==> b.lastFailure == LatestFailure(events))
  }

  lemma StepExplained(cfg: Config, b: Breaker, events: seq<Event>, e: Event)
    requires Explained(cfg, b, events)
    ensures Explained(cfg, Step(cfg, b, e),
                      if e.Reset? || (e.Success? && Probing(cfg, events)) then [] else events + [e])
  {
    CountAppend(events, e);
    ProbingAppend(cfg, events, e);
    FailuresMonotone(events, |events|);
    assert (events + [e])[..|events|] == events;
  }

  /**
   * The breaker is determined by its timed trace: the failure count is the number of failures since
   * it last closed, and the phase follows from that count and from who looked when. Successes while
   * closed do not lower the count.
   */
  lemma {:induction false} DeterminedByTrace(cfg: Config, trace: seq<Event>)
    ensures var b, events := Run(cfg, trace), SinceClose(cfg, trace);
            && Explained(cfg, b, events)
            && (b.phase.Closed? <==> b.failureCount == 0 || b.failureCount < cfg.failureThreshold)
            && b.lastFailure == LatestFailure(trace)
  {
    if trace != [] {
      var before := trace[..|trace| - 1];
      DeterminedByTrace(cfg, before);
      StepExplained(cfg, Run(cfg, before), SinceClose(cfg, before), trace[|trace| - 1]);
    }
  }

  function Successes(events: seq<Event>): nat {
    if events == [] then 0
    else Successes(events[..|events| - 1]) + (if events[|events| - 1].Success? then 1 else 0)
  }

  function LatestSuccess(events: seq<Event>): Option<real> {
    if events == [] then None
    else if events[|events| - 1].Success? then Some(events[|events| - 1].at)
    else LatestSuccess(events[..|events| - 1])
  }

  /** The requests of a trace that found the breaker open. */
  function Rejections(cfg: Config, trace: seq<Event>): nat {
    if trace == [] then 0
    else
      var before, last := trace[..|trace| - 1], trace[|trace| - 1];
      Rejections(cfg, before) + (if last.Request? && !Allows(cfg, Run(cfg, before), last.at) then 1 else 0)
  }

  /** The statistics over a whole trace: calls by outcome, rejections, and the latest of each outcome. */
  lemma {:induction false} CountersExplained(cfg: Config, trace: seq<Event>)
    ensures var b := Run(cfg, trace);
            && b.successCount == Successes(trace) && b.totalCalls == Successes(trace) + Failures(trace)
            && b.totalRejections == Rejections(cfg, trace)
            && b.lastSuccess == LatestSuccess(trace) && b.lastFailure == LatestFailure(trace)
  {
    if trace != [] {
      CountersExplained(cfg, trace[..|trace| - 1]);
    }
  }

  // ------------------------------------------------------------------
  // Which requests are rejected
  // ------------------------------------------------------------------

  predicate NotAfter(trace: seq<Event>, now: real) {
    forall e | e in trace :: e.at <= now
  }

  lemma {:induction false} SinceCloseFromTrace(cfg: Config, trace: seq<Event>)
    ensures forall e | e in SinceClose(cfg, trace) :: e in trace
  {
    if trace != [] {
      SinceCloseFromTrace(cfg, trace[..|trace| - 1]);
    }
  }

  lemma {:induction false} LatestOfPrefix(events: seq<Event>, j: nat)
    requires j <= |events| && Failures(events[..j]) == Failures(events)
    ensures LatestFailure(events[..j]) == LatestFailure(events)
  {
    if j == |events| {
      assert events[..j] == events;
    } else {
      var before := events[..|events| - 1];
      assert before[..j] == events[..j];
      FailuresMonotone(before, j);
      LatestOfPrefix(before, j);
    }
  }

  /**
   * Exactly which requests are turned away, under a non-decreasing clock: those that find enough
   * failures since the last close or reset, with the latest of them less than the recovery timeout ago.
   */
  lemma RejectedIff(cfg: Config, trace: seq<Event>, now: real)
    requires NotAfter(trace, now)
    ensures var events := SinceClose(cfg, trace);
            !Allows(cfg, Run(cfg, trace), now)
            <==> && Tripped(cfg, events) && LatestFailure(events).Some?
                 && now - LatestFailure(events).value < cfg.recoveryTimeout
  {
    var b, events := Run(cfg, trace), SinceClose(cfg, trace);
    DeterminedByTrace(cfg, trace);
    FailuresMonotone(events, |events|);
    if Probing(cfg, events) {
      var j :| 0 <= j < |events| && LookedLate(cfg, events, j) && Failures(events[..j]) == Failures(events);
      LatestOfPrefix(events, j);
      SinceCloseFromTrace(cfg, trace);
      assert events[j] in trace;
    }
  }

  function Requests(events: seq<Event>): nat {
    if events == [] then 0
    else Requests(events[..|events| - 1]) + (if events[|events| - 1].Request? then 1 else 0)
  }

  /** No reset, and less than the recovery timeout since the latest failure of the trace before. */
  predicate TooEarly(cfg: Config, trace: seq<Event>, e: Event) {
    && !e.Reset? && LatestFailure(trace).Some?
    && e.at - LatestFailure(trace).value < cfg.recoveryTimeout
  }

  /** The breaker is open before and after `more`, having rejected each of its requests. */
  ghost predicate KeptOpen(cfg: Config, trace: seq<Event>, more: seq<Event>) {
    var b, b' := Run(cfg, trace), Run(cfg, trace + more);
    && b'.phase.Open?
    && b'.totalRejections == b.totalRejections + Requests(more)
    && b'.failureCount == b.failureCount + Failures(more)
  }

  lemma KeptOpenStep(cfg: Config, trace: seq<Event>, more: seq<Event>, e: Event)
    requires KeptOpen(cfg, trace, more) && TooEarly(cfg, trace + more, e)
    ensures KeptOpen(cfg, trace, more + [e])
  {
    hide Step, TooEarly, SinceClose;
    RunAppend(cfg, trace, more, e);
    StaysOpen(cfg, trace + more, e);
    assert (more + [e])[..|more|] == more;
  }

  /**
   * From the moment it opens, and without a reset, the breaker lets nothing through until the
   * recovery timeout has passed since the latest failure, including failures reported meanwhile.
   */
  lemma {:induction false} NothingPassesWhileOpen(cfg: Config, trace: seq<Event>, more: seq<Event>)
    requires Run(cfg, trace).phase.Open?
    requires forall k | 0 <= k < |more| :: TooEarly(cfg, trace + more[..k], more[k])
    ensures KeptOpen(cfg, trace, more)
  {
    if more == [] {
      assert trace + more == trace;
    } else {
      hide TooEarly, KeptOpen;
      var n := |more| - 1;
      var before := more[..n];
      forall k | 0 <= k < n
        ensures TooEarly(cfg, trace + before[..k], before[k])
      {
        assert before[..k] == more[..k];
      }
      NothingPassesWhileOpen(cfg, trace, before);
      KeptOpenStep(cfg, trace, before, more[n]);
      assert more == before + [more[n]];
    }
  }

  lemma StaysOpen(cfg: Config, trace: seq<Event>, e: Event)
    requires Run(cfg, trace).phase.Open? && TooEarly(cfg, trace, e)
    ensures var b, b' := Run(cfg, trace), Step(cfg, Run(cfg, trace), e);
            && b'.phase.Open?
            && b'.totalRejections == b.totalRejections + (if e.Request? then 1 else 0)
            && b'.failureCount == b.failureCount + (if e.Failure? then 1 else 0)
  {
    hide SinceClose, PhaseOf;
    DeterminedByTrace(cfg, trace);
  }

  lemma RunAppend(cfg: Config, trace: seq<Event>, more: seq<Event>, e: Event)
    ensures Run(cfg, trace + (more + [e])) == Step(cfg, Run(cfg, trace + more), e)
  {
    var longer := trace + (more + [e]);
    assert longer[..|longer| - 1] == trace + more;
  }

  // ------------------------------------------------------------------
  // Reading the state is not free
  // ------------------------------------------------------------------

  /** Reading the breaker now moves it to half-open. */
  predicate ReadMoves(cfg: Config, b: Breaker, now: real) {
    b.phase.Open? && b.lastFailure.Some? && now - b.lastFailure.value >= cfg.recoveryTimeout
  }

  /**
   * When a read matters: whatever comes next, it leaves the breaker as it would have without the
   * read, except a success at an open breaker whose recovery timeout had passed. That success closes
   * the breaker if it was read, and is merely counted if it was not.
   */
  lemma ReadMattersIff(cfg: Config, b: Breaker, at: real, e: Event)
    requires at <= e.at
    ensures var read, unread := Step(cfg, Step(cfg, b, Observe(at)), e), Step(cfg, b, e);
            && (read != unread <==> ReadMoves(cfg, b, at) && e.Success?)
            && (read != unread ==> read == unread.(phase := Closed, failureCount := 0) && unread.phase.Open?)
  {
    var read, unread := Step(cfg, Step(cfg, b, Observe(at)), e), Step(cfg, b, e);
    if ReadMoves(cfg, b, at) && e.Success? {
      assert read.phase.Closed? && unread.phase.Open?;
    }
  }

  /** The two runs, with and without the read, are in the same state after `more`. */
  ghost predicate Unnoticed(cfg: Config, trace: seq<Event>, at: real, more: seq<Event>) {
    Run(cfg, (trace + [Observe(at)]) + more) == Run(cfg, trace + more)
  }

  lemma {:induction false} StaysUnnoticed(cfg: Config, trace: seq<Event>, at: real, more: seq<Event>, k: nat)
    requires 1 <= k <= |more| && Unnoticed(cfg, trace, at, more[..1])
    ensures Unnoticed(cfg, trace, at, more[..k])
  {
    if k > 1 {
      hide Step;
      StaysUnnoticed(cfg, trace, at, more, k - 1);
      assert more[..k] == more[..k - 1] + [more[k - 1]];
      RunAppend(cfg, trace + [Observe(at)], more[..k - 1], more[k - 1]);
      RunAppend(cfg, trace, more[..k - 1], more[k - 1]);
    }
  }

  lemma FirstUnnoticedIff(cfg: Config, trace: seq<Event>, at: real, e: Event)
    requires at <= e.at
    ensures Unnoticed(cfg, trace, at, [e]) <==> !(ReadMoves(cfg, Run(cfg, trace), at) && e.Success?)
  {
    hide Step, ReadMoves;
    ReadMattersIff(cfg, Run(cfg, trace), at, e);
    assert trace + [Observe(at)] == trace + ([] + [Observe(at)]) && trace + [] == trace;
    assert (trace + [Observe(at)]) + [] == trace + [Observe(at)] && [] + [e] == [e];
    RunAppend(cfg, trace, [], Observe(at));
    RunAppend(cfg, trace + [Observe(at)], [], e);
    RunAppend(cfg, trace, [], e);
  }

  /**
   * Over runs: slip one read of the state in anywhere. From the next event on nobody can ever tell,
   * if and only if it is not the case that the read moved the breaker and that event is a success.
   */
  lemma ReadUnnoticedIff(cfg: Config, trace: seq<Event>, at: real, more: seq<Event>)
    requires more != [] && at <= more[0].at
    ensures (forall k | 1 <= k <= |more| :: Unnoticed(cfg, trace, at, more[..k]))
            <==> !(ReadMoves(cfg, Run(cfg, trace), at) && more[0].Success?)
  {
    hide Unnoticed, ReadMoves;
    assert more[..1] == [more[0]];
    FirstUnnoticedIff(cfg, trace, at, more[0]);
    if Unnoticed(cfg, trace, at, more[..1]) {
      forall k | 1 <= k <= |more|
        ensures Unnoticed(cfg, trace, at, more[..k])
      {
        StaysUnnoticed(cfg, trace, at, more, k);
      }
    }
  }

  /** The condition does occur: these two runs differ in one read and end in different phases. */
  lemma LookingMatters()
    ensures var cfg := Config(1, 30.0);
            && Run(cfg, [Failure(0.0), Success(60.0)]).phase == Open
            && Run(cfg, [Failure(0.0), Observe(60.0), Success(60.0)]).phase == Closed
  {
  }

  // ------------------------------------------------------------------
  // Failures are counted across successes
  // ------------------------------------------------------------------

  /** Consecutive failures: those after the latest success. */
  function Streak(events: seq<Event>): nat {
    if events == [] || events[|events| - 1].Success? then 0
    else Streak(events[..|events| - 1]) + (if events[|events| - 1].Failure? then 1 else 0)
  }

  /** Some success came after some failure. */
  ghost predicate Interrupted(events: seq<Event>) {
    exists i, j :: 0 <= i < j < |events| && events[i].Failure? && events[j].Success?
  }

  lemma {:induction false} NoFailures(events: seq<Event>)
    ensures Failures(events) == 0 <==> forall i | 0 <= i < |events| :: !events[i].Failure?
  {
    if events != [] {
      NoFailures(events[..|events| - 1]);
    }
  }

  lemma {:induction false} StreakIff(events: seq<Event>)
    ensures Streak(events) <= Failures(events)
    ensures Streak(events) == Failures(events) <==> !Interrupted(events)
  {
    if events != [] {
      var n := |events| - 1;
      StreakIff(events[..n]);
      if events[n].Success? {
        NoFailures(events);
        assert Failures(events) == 0 <==> !Interrupted(events) by {
          if i :| 0 <= i < |events| && events[i].Failure? {
            assert i < n && events[n].Success?;
          }
        }
      } else if Interrupted(events) {
        var i, j :| 0 <= i < j < |events| && events[i].Failure? && events[j].Success?;
        assert events[..n][i].Failure? && events[..n][j].Success?;
      }
    }
  }

  /**
   * The failure count is the number of consecutive failures exactly when no success has come after a
   * failure since the breaker last closed; otherwise it is larger, and opens the breaker sooner.
   */
  lemma CountIsStreakIff(cfg: Config, trace: seq<Event>)
    ensures var count, events := Run(cfg, trace).failureCount, SinceClose(cfg, trace);
            && Streak(events) <= count
            && (count == Streak(events) <==> !Interrupted(events))
  {
    DeterminedByTrace(cfg, trace);
    StreakIff(SinceClose(cfg, trace));
  }

  /** So a breaker can open without two failures in a row, at a threshold of two. */
  lemma OpensWithoutStreak()
    ensures var cfg, trace := Config(2, 30.0), [Failure(0.0), Success(1.0), Failure(2.0)];
            Run(cfg, trace).phase == Open && Streak(trace) == 1
  {
  }

  // ------------------------------------------------------------------
  // Half-open probes
  // ------------------------------------------------------------------

  /** However many requests a half-open breaker gets before an outcome is recorded, it admits them all. */
  lemma {:induction false} ProbesUnlimited(cfg: Config, trace: seq<Event>, more: seq<Event>)
    requires Run(cfg, trace).phase.HalfOpen?
    requires forall k | 0 <= k < |more| :: more[k].Request? || more[k].Observe?
    ensures Run(cfg, trace + more) == Run(cfg, trace)
    ensures forall k | 0 <= k < |more| :: Allows(cfg, Run(cfg, trace + more[..k]), more[k].at)
  {
    if more == [] {
      assert trace + more == trace;
    } else {
      var n := |more| - 1;
      assert more == more[..n] + [more[n]];
      ProbesUnlimited(cfg, trace, more[..n]);
      RunAppend(cfg, trace, more[..n], more[n]);
      forall k | 0 <= k < |more|
        ensures Allows(cfg, Run(cfg, trace + more[..k]), more[k].at)
      {
        assert k < n ==> more[..n][..k] == more[..k];
      }
    }
  }

  /** Half-open is reached, and two requests in a row pass it. */
  lemma TwoProbes()
    ensures var cfg := Config(1, 30.0);
            && Allows(cfg, Run(cfg, [Failure(0.0)]), 60.0)
            && Run(cfg, [Failure(0.0), Request(60.0)]).phase == HalfOpen
            && Allows(cfg, Run(cfg, [Failure(0.0), Request(60.0)]), 61.0)
  {
  }

  // ------------------------------------------------------------------
  // The breaker object
  // ------------------------------------------------------------------

  class CircuitBreaker {
    const name: string
    const failureThreshold: int
    const recoveryTimeout: real
    var phase: Phase
    var failureCount: nat
    var successCount: nat
    var lastFailureTime: Option<real>
    var lastSuccessTime: Option<real>
    var totalCalls: nat
    var totalRejections: nat

    constructor (name: string, failureThreshold: int, recoveryTimeout: real)
      ensures Settings() == Config(failureThreshold, recoveryTimeout) && State() == FRESH && this.name == name
    {
      this.name, this.failureThreshold, this.recoveryTimeout := name, failureThreshold, recoveryTimeout;
      phase, failureCount, successCount, totalCalls, totalRejections := Closed, 0, 0, 0, 0;
      lastFailureTime, lastSuccessTime := None, None;
    }

    function Settings(): Config {
      Config(failureThreshold, recoveryTimeout)
    }

    function State(): Breaker
      reads this
    {
      Breaker(phase, failureCount, successCount, lastFailureTime, lastSuccessTime, totalCalls, totalRejections)
    }

    method MaybeTransitionToHalfOpen(now: real)
      modifies this`phase
      ensures State() == Look(Settings(), old(State()), now)
    {
      if phase == Open && lastFailureTime.Some? && now - lastFailureTime.value >= recoveryTimeout {
        phase := HalfOpen;
      }
    }

    /** The `state` property: reading it can move the breaker. */
    method ReadState(now: real) returns (current: Phase)
      modifies this`phase
      ensures State() == Step(Settings(), old(State()), Observe(now))
      ensures current == phase
    {
      MaybeTransitionToHalfOpen(now);
      current := phase;
    }

    method AllowRequest(now: real) returns (allowed: bool)
      modifies this
      ensures allowed == Allows(Settings(), old(State()), now)
      ensures State() == Step(Settings(), old(State()), Request(now))
    {
      MaybeTransitionToHalfOpen(now);
      if phase == Closed {
        return true;
      }
      if phase == HalfOpen {
        return true;
      }
      totalRejections := totalRejections + 1;
      return false;
    }

    method RecordSuccess(now: real)
      modifies this
      ensures State() == Step(Settings(), old(State()), Success(now))
    {
      successCount := successCount + 1;
      totalCalls := totalCalls + 1;
      lastSuccessTime := Some(now);
      if phase == HalfOpen {
        phase := Closed;
        failureCount := 0;
      }
    }

    method RecordFailure(now: real)
      modifies this
      ensures State() == Step(Settings(), old(State()), Failure(now))
    {
      failureCount := failureCount + 1;
      totalCalls := totalCalls + 1;
      lastFailureTime := Some(now);
      if phase == HalfOpen {
        phase := Open;
      } else if phase == Closed && failureCount >= failureThreshold {
        phase := Open;
      }
    }

    method ResetBreaker(now: real)
      modifies this
      ensures State() == Step(Settings(), old(State()), Reset(now))
    {
      phase := Closed;
      failureCount := 0;
    }

    method Stats(now: real) returns (snapshot: Breaker)
      modifies this
      ensures State() == Step(Settings(), old(State()), Observe(now))
      ensures snapshot == State()
    {
      MaybeTransitionToHalfOpen(now);
      snapshot := Breaker(phase, failureCount, successCount, lastFailureTime, lastSuccessTime, totalCalls,
                          totalRejections);
    }
  }
}
