/** The synchronous retry loop and its circuit breaker (`aiswarm/resilience/retry.py`). */
module Retry {
  import opened Common
  import CB = CircuitBreakers

  datatype Policy = Policy(maxAttempts: int, backoffBase: real, backoffMax: real, jitter: bool)

  datatype CallOutcome = Returned(value: int) | Raised(exception: int, retryable: bool)

  /**
   * What the world does at one attempt: the outcome of the call and how long it took, the random
   * draw in [0, 1) for the jitter, how much longer than asked the sleep lasted, and, if the breaker
   * turns the attempt away, how much later the log record reads the breaker's state.
   */
  datatype Attempt = Attempt(outcome: CallOutcome, took: real, draw: real, overslept: real, lag: real)

  type World = nat -> Attempt

  datatype RetryResult =
    | Value(value: int)
    | RetryExhausted(attempts: int, lastException: Option<int>)
    | Propagated(exception: int)
    | NoAttempts

  // ------------------------------------------------------------------
  // Backoff
  // ------------------------------------------------------------------

  function Pow2(n: nat): real {
    if n == 0 then 1.0 else 2.0 * Pow2(n - 1)
  }

  /** The delay before jitter. */
  function Backoff(p: Policy, attempt: nat): real
    requires attempt >= 1
  {
    Min(p.backoffBase * Pow2(attempt - 1), p.backoffMax)
  }

  function ComputeDelay(p: Policy, attempt: nat, draw: real): real
    requires attempt >= 1
  {
    var delay := Backoff(p, attempt);
    if p.jitter then WithJitter(delay, draw) else delay
  }

  function WithJitter(delay: real, draw: real): real {
    delay * (0.5 + draw * 0.5)
  }

  /** Doubling until the cap: each backoff is the doubled previous one, cut off at the cap. */
  lemma BackoffDoubles(p: Policy, attempt: nat)
    requires attempt >= 1 && p.backoffBase >= 0.0 && p.backoffMax >= 0.0
    ensures Backoff(p, 1) == Min(p.backoffBase, p.backoffMax)
    ensures Backoff(p, attempt + 1) == Min(2.0 * Backoff(p, attempt), p.backoffMax)
    ensures 0.0 <= Backoff(p, attempt) <= Backoff(p, attempt + 1) <= p.backoffMax
  {
    Pow2Positive(attempt - 1);
    assert p.backoffBase * Pow2(attempt) == 2.0 * (p.backoffBase * Pow2(attempt - 1));
    assert p.backoffBase * Pow2(attempt - 1) >= 0.0;
  }

  lemma {:induction false} Pow2Positive(n: nat)
    ensures Pow2(n) >= 1.0
  {
    if n > 0 { Pow2Positive(n - 1); }
  }

  /** Without jitter the delay is the backoff; with it the draw places it between the half and the whole. */
  lemma DelayExact(p: Policy, attempt: nat, draw: real)
    requires attempt >= 1
    ensures !p.jitter ==> ComputeDelay(p, attempt, draw) == Backoff(p, attempt)
    ensures p.jitter ==> 2.0 * ComputeDelay(p, attempt, draw) == Backoff(p, attempt) + Backoff(p, attempt) * draw
  {
    hide Backoff;
    var d := Backoff(p, attempt);
    assert 2.0 * WithJitter(d, draw) == d * (1.0 + draw) == d + d * draw;
  }

  /** Jitter at most halves the delay and never lengthens it. */
  lemma JitterBounds(p: Policy, attempt: nat, draw: real)
    requires attempt >= 1 && p.backoffBase >= 0.0 && p.backoffMax >= 0.0 && 0.0 <= draw < 1.0
    ensures 0.5 * Backoff(p, attempt) <= ComputeDelay(p, attempt, draw) <= Backoff(p, attempt)
  {
    BackoffDoubles(p, attempt);
    Jittered(Backoff(p, attempt), draw);
  }

  lemma Jittered(delay: real, draw: real)
    requires delay >= 0.0 && 0.0 <= draw < 1.0
    ensures 0.5 * delay <= WithJitter(delay, draw) <= delay
  {
    assert 0.0 <= delay * draw <= delay;
  }

  // ------------------------------------------------------------------
  // The loop, on values
  // ------------------------------------------------------------------

  datatype Loop = Loop(breaker: Option<CB.Breaker>, now: real, lastException: Option<int>, totalDelay: real, calls: nat)

  function Record(bcfg: CB.Config, b: Option<CB.Breaker>, e: CB.Event): Option<CB.Breaker> {
    if b.None? then None else Some(CB.Step(bcfg, b.value, e))
  }

  function RetryFrom(p: Policy, bcfg: CB.Config, world: World, attempt: nat, st: Loop): (RetryResult, Loop)
    requires attempt >= 1
    decreases p.maxAttempts - attempt + 1
  {
    if attempt > p.maxAttempts then
      (if st.lastException.None? then NoAttempts else RetryExhausted(p.maxAttempts, st.lastException), st)
    else if st.breaker.Some? && !CB.Allows(bcfg, st.breaker.value, st.now) then
      var logged := st.now + world(attempt).lag;
      (RetryExhausted(if st.lastException.Some? then attempt - 1 else 0, st.lastException),
       st.(now := logged,
           breaker := Record(bcfg, Record(bcfg, st.breaker, CB.Request(st.now)), CB.Observe(logged))))
    else
      var a := world(attempt);
      var admitted := Record(bcfg, st.breaker, CB.Request(st.now));
      var done := st.now + a.took;
      var called := st.(now := done, calls := st.calls + 1);
      match a.outcome
      case Returned(v) => (Value(v), called.(breaker := Record(bcfg, admitted, CB.Success(done))))
      case Raised(e, retryable) =>
        if !retryable then (Propagated(e), called.(breaker := admitted))
        else
          var failed := called.(breaker := Record(bcfg, admitted, CB.Failure(done)), lastException := Some(e));
          if attempt == p.maxAttempts then (RetryExhausted(p.maxAttempts, Some(e)), failed)
          else
            var delay := ComputeDelay(p, attempt, a.draw);
            RetryFrom(p, bcfg, world, attempt + 1,
                      failed.(now := done + delay + a.overslept, totalDelay := st.totalDelay + delay))
  }

  function Start(breaker: Option<CB.Breaker>, now: real): Loop {
    Loop(breaker, now, None, 0.0, 0)
  }

  // ------------------------------------------------------------------
  // Retry against a breaker
  // ------------------------------------------------------------------

  function MinInt(a: int, b: int): int {
    if a <= b then a else b
  }

  /** Every call the loop can make fails with a retryable exception. */
  ghost predicate AllFail(p: Policy, world: World) {
    forall i | 1 <= i <= p.maxAttempts :: world(i).outcome.Raised? && world(i).outcome.retryable
  }

  /** How long the sleep after an attempt really lasts. */
  function Slept(p: Policy, world: World, attempt: nat): real
    requires attempt >= 1
  {
    ComputeDelay(p, attempt, world(attempt).draw) + world(attempt).overslept
  }

  /** No sleep between two attempts of the loop reaches the recovery timeout. */
  ghost predicate SleepsShort(p: Policy, world: World, timeout: real) {
    forall i | 1 <= i < p.maxAttempts :: Slept(p, world, i) < timeout
  }

  lemma {:induction false} BackoffGrows(p: Policy, i: nat, j: nat)
    requires 1 <= i <= j && p.backoffBase >= 0.0 && p.backoffMax >= 0.0
    ensures Backoff(p, i) <= Backoff(p, j)
    decreases j
  {
    if i < j {
      BackoffGrows(p, i, j - 1);
      BackoffDoubles(p, j - 1);
    }
  }

  /** The last backoff the loop can take bounds all of its sleeps, up to the oversleeping. */
  lemma LastBackoffBounds(p: Policy, world: World, slack: real, timeout: real)
    requires p.maxAttempts >= 2 && p.backoffBase >= 0.0 && p.backoffMax >= 0.0
    requires forall i | 1 <= i < p.maxAttempts :: 0.0 <= world(i).draw < 1.0 && world(i).overslept <= slack
    requires Backoff(p, p.maxAttempts - 1) + slack < timeout
    ensures SleepsShort(p, world, timeout)
  {
    forall i | 1 <= i < p.maxAttempts
      ensures Slept(p, world, i) < timeout
    {
      JitterBounds(p, i, world(i).draw);
      BackoffGrows(p, i, p.maxAttempts - 1);
    }
  }

  /**
   * A breaker just opened by this loop's failure turns away the next attempt. It stays open unless
   * the log record reads its state so late that the recovery timeout has passed by then.
   */
  lemma OpenedStops(p: Policy, bcfg: CB.Config, world: World, attempt: nat, st: Loop)
    requires 1 <= attempt <= p.maxAttempts && st.lastException.Some?
    requires st.breaker.Some? && st.breaker.value.phase.Open? && st.breaker.value.lastFailure.Some?
    requires st.now - st.breaker.value.lastFailure.value < bcfg.recoveryTimeout
    ensures var (result, end) := RetryFrom(p, bcfg, world, attempt, st);
            var logged, b := st.now + world(attempt).lag, st.breaker.value;
            && result == RetryExhausted(attempt - 1, st.lastException)
            && end == st.(now := logged, breaker := Some(b.(
                 totalRejections := b.totalRejections + 1,
                 phase := if logged - b.lastFailure.value < bcfg.recoveryTimeout then CB.Open else CB.HalfOpen)))
  {
    hide ComputeDelay;
  }

  /** Whether the log record of the attempt after `made` calls reads the breaker's state in time. */
  predicate ReadInTime(p: Policy, world: World, made: nat, timeout: real)
    requires made >= 1
  {
    Slept(p, world, made) + world(made + 1).lag < timeout
  }

  lemma {:induction false} FailingRunFrom(p: Policy, bcfg: CB.Config, world: World, attempt: nat, st: Loop)
    requires 1 <= attempt <= p.maxAttempts && AllFail(p, world) && SleepsShort(p, world, bcfg.recoveryTimeout)
    requires st.breaker.Some? && st.breaker.value.phase.Closed?
    requires st.breaker.value.failureCount < bcfg.failureThreshold
    ensures var f := st.breaker.value.failureCount;
            var made := MinInt(p.maxAttempts - attempt + 1, bcfg.failureThreshold - f);
            var (result, end) := RetryFrom(p, bcfg, world, attempt, st);
            && made >= 1
            && result == RetryExhausted(attempt - 1 + made, Some(world(attempt - 1 + made).outcome.exception))
            && end.calls == st.calls + made
            && end.breaker.Some?
            && end.breaker.value.failureCount == f + made
            && end.breaker.value.totalCalls == st.breaker.value.totalCalls + made
            && end.breaker.value.successCount == st.breaker.value.successCount
            && (end.breaker.value.phase.Closed? <==> f + made < bcfg.failureThreshold)
            && (end.breaker.value.phase.Open? <==>
                  f + made >= bcfg.failureThreshold
                  && (attempt - 1 + made == p.maxAttempts
                      || ReadInTime(p, world, attempt - 1 + made, bcfg.recoveryTimeout)))
    decreases p.maxAttempts - attempt
  {
    hide ComputeDelay;
    var a, b := world(attempt), st.breaker.value;
    assert a.outcome.Raised? && a.outcome.retryable;
    var done := st.now + a.took;
    var failed := CB.Step(bcfg, CB.Step(bcfg, b, CB.Request(st.now)), CB.Failure(done));
    if attempt < p.maxAttempts {
      var delay := ComputeDelay(p, attempt, a.draw);
      var next := Loop(Some(failed), done + delay + a.overslept, Some(a.outcome.exception),
                       st.totalDelay + delay, st.calls + 1);
      assert RetryFrom(p, bcfg, world, attempt, st) == RetryFrom(p, bcfg, world, attempt + 1, next);
      if failed.phase.Open? {
        assert Slept(p, world, attempt) < bcfg.recoveryTimeout;
        OpenedStops(p, bcfg, world, attempt + 1, next);
      } else {
        FailingRunFrom(p, bcfg, world, attempt + 1, next);
      }
    }
  }

  /**
   * When every call fails against a closed breaker with `f` recorded failures, and no sleep reaches
   * the recovery timeout, exactly min(max_attempts, threshold - f) calls are made. Each is recorded
   * once, and the exception reports that number and the last call's error. The breaker ends closed
   * below the threshold and open from it on, unless the log record of the rejected attempt reads its
   * state after the recovery timeout.
   */
  lemma FailingRun(p: Policy, bcfg: CB.Config, world: World, b: CB.Breaker, now: real)
    requires p.maxAttempts >= 1 && AllFail(p, world) && SleepsShort(p, world, bcfg.recoveryTimeout)
    requires b.phase.Closed? && b.failureCount < bcfg.failureThreshold
    ensures var made := MinInt(p.maxAttempts, bcfg.failureThreshold - b.failureCount);
            var (result, end) := RetryFrom(p, bcfg, world, 1, Start(Some(b), now));
            && made >= 1
            && result == RetryExhausted(made, Some(world(made).outcome.exception))
            && end.calls == made
            && end.breaker.Some?
            && end.breaker.value.failureCount == b.failureCount + made
            && end.breaker.value.totalCalls == b.totalCalls + made
            && (end.breaker.value.phase.Closed? <==> b.failureCount + made < bcfg.failureThreshold)
            && (end.breaker.value.phase.Open? <==>
                  b.failureCount + made >= bcfg.failureThreshold
                  && (made == p.maxAttempts || ReadInTime(p, world, made, bcfg.recoveryTimeout)))
  {
    FailingRunFrom(p, bcfg, world, 1, Start(Some(b), now));
  }

  // ------------------------------------------------------------------
  // Any world
  // ------------------------------------------------------------------

  lemma {:induction false} RecordedFrom(p: Policy, bcfg: CB.Config, world: World, attempt: nat, st: Loop)
    requires attempt >= 1
    ensures var (result, end) := RetryFrom(p, bcfg, world, attempt, st);
            && st.calls <= end.calls
            && (attempt <= p.maxAttempts ==> end.calls - st.calls <= p.maxAttempts - attempt + 1)
            && (attempt > p.maxAttempts ==> end.calls == st.calls)
            && end.breaker.Some? == st.breaker.Some?
            && (st.breaker.Some? ==>
                  && end.breaker.value.totalCalls - st.breaker.value.totalCalls
                     == end.calls - st.calls - (if result.Propagated? then 1 else 0)
                  && end.breaker.value.successCount - st.breaker.value.successCount
                     == if result.Value? then 1 else 0)
            && (result.RetryExhausted? && st.lastException.Some? && st.calls == attempt - 1 < p.maxAttempts ==>
                  result.attempts == end.calls && result.lastException.Some?)
            && (result.RetryExhausted? && st.lastException.None? && st.calls == 0 && attempt == 1 ==>
                  result.attempts == end.calls)
    decreases p.maxAttempts - attempt + 1
  {
    hide ComputeDelay;
    if attempt <= p.maxAttempts && (st.breaker.None? || CB.Allows(bcfg, st.breaker.value, st.now)) {
      var a := world(attempt);
      if a.outcome.Raised? && a.outcome.retryable && attempt < p.maxAttempts {
        var done := st.now + a.took;
        var delay := ComputeDelay(p, attempt, a.draw);
        var admitted := Record(bcfg, st.breaker, CB.Request(st.now));
        RecordedFrom(p, bcfg, world, attempt + 1,
                     Loop(Record(bcfg, admitted, CB.Failure(done)), done + delay + a.overslept,
                          Some(a.outcome.exception), st.totalDelay + delay, st.calls + 1));
      }
    }
  }

  /**
   * In any world: at most `max_attempts` calls, a `RetryExhausted` reports exactly the calls made,
   * and the breaker hears of every call once, except one whose exception is not retryable.
   */
  lemma EveryCallRecorded(p: Policy, bcfg: CB.Config, world: World, b: CB.Breaker, now: real)
    ensures var (result, end) := RetryFrom(p, bcfg, world, 1, Start(Some(b), now));
            && (p.maxAttempts >= 1 ==> end.calls <= p.maxAttempts)
            && (result.NoAttempts? ==> p.maxAttempts < 1)
            && (result.RetryExhausted? ==> result.attempts == end.calls)
            && end.breaker.Some?
            && end.breaker.value.totalCalls - b.totalCalls == end.calls - (if result.Propagated? then 1 else 0)
            && end.breaker.value.successCount - b.successCount == if result.Value? then 1 else 0
  {
    RecordedFrom(p, bcfg, world, 1, Start(Some(b), now));
    NoAttemptsOnlyIfNone(p, bcfg, world, 1, Start(Some(b), now));
  }

  lemma {:induction false} NoAttemptsOnlyIfNone(p: Policy, bcfg: CB.Config, world: World, attempt: nat, st: Loop)
    requires attempt >= 1
    ensures RetryFrom(p, bcfg, world, attempt, st).0.NoAttempts? <==> attempt > p.maxAttempts && st.lastException.None?
    decreases p.maxAttempts - attempt + 1
  {
    hide ComputeDelay;
    if attempt < p.maxAttempts && (st.breaker.None? || CB.Allows(bcfg, st.breaker.value, st.now)) {
      var a := world(attempt);
      if a.outcome.Raised? && a.outcome.retryable {
        var done := st.now + a.took;
        var delay := ComputeDelay(p, attempt, a.draw);
        var admitted := Record(bcfg, st.breaker, CB.Request(st.now));
        NoAttemptsOnlyIfNone(p, bcfg, world, attempt + 1,
                             Loop(Record(bcfg, admitted, CB.Failure(done)), done + delay + a.overslept,
                                  Some(a.outcome.exception), st.totalDelay + delay, st.calls + 1));
      }
    }
  }

  /** The time taken by the calls from `attempt` up to `k`, with the sleep after each. */
  function Elapsed(p: Policy, world: World, attempt: nat, k: nat): real
    requires 1 <= attempt <= k
    decreases k - attempt
  {
    if attempt == k then 0.0
    else world(attempt).took + Slept(p, world, attempt) + Elapsed(p, world, attempt + 1, k)
  }

  /** The delays asked for in between. */
  function Delays(p: Policy, world: World, attempt: nat, k: nat): real
    requires 1 <= attempt <= k
    decreases k - attempt
  {
    if attempt == k then 0.0
    else ComputeDelay(p, attempt, world(attempt).draw) + Delays(p, world, attempt + 1, k)
  }

  /**
   * Without a breaker the first call that is no retryable failure decides the result, and the last
   * attempt decides it in any case. The time spent is that of the calls made and the sleeps between.
   */
  lemma {:induction false} FirstDecisiveAttempt(p: Policy, bcfg: CB.Config, world: World, attempt: nat, k: nat,
                                                 st: Loop)
    requires 1 <= attempt <= k <= p.maxAttempts && st.breaker.None?
    requires forall i | attempt <= i < k :: world(i).outcome.Raised? && world(i).outcome.retryable
    requires world(k).outcome.Raised? && world(k).outcome.retryable ==> k == p.maxAttempts
    ensures var (result, end) := RetryFrom(p, bcfg, world, attempt, st);
            && result == (match world(k).outcome
                          case Returned(v) => Value(v)
                          case Raised(e, retryable) =>
                            if retryable then RetryExhausted(p.maxAttempts, Some(e)) else Propagated(e))
            && end.calls == st.calls + (k - attempt + 1)
            && end.now == st.now + Elapsed(p, world, attempt, k) + world(k).took
            && end.totalDelay == st.totalDelay + Delays(p, world, attempt, k)
    decreases k - attempt
  {
    hide ComputeDelay;
    if attempt < k {
      var a := world(attempt);
      var done := st.now + a.took;
      var delay := ComputeDelay(p, attempt, a.draw);
      FirstDecisiveAttempt(p, bcfg, world, attempt + 1, k,
                           Loop(None, done + delay + a.overslept, Some(a.outcome.exception),
                                st.totalDelay + delay, st.calls + 1));
    }
  }

  // ------------------------------------------------------------------
  // The wrapper
  // ------------------------------------------------------------------

  ghost function StateOf(breaker: CB.CircuitBreaker?): Option<CB.Breaker>
    reads breaker
  {
    if breaker == null then None else Some(breaker.State())
  }

  ghost function SettingsOf(breaker: CB.CircuitBreaker?): CB.Config {
    if breaker == null then CB.Config(0, 0.0) else breaker.Settings()
  }

  /** `sync_wrapper`: the calls themselves, the clock and the random draws come from `world`. */
  method SyncWrapper(p: Policy, world: World, breaker: CB.CircuitBreaker?, start: real)
    returns (result: RetryResult, now: real, calls: nat)
    modifies if breaker == null then {} else {breaker}
    ensures var (r, end) := RetryFrom(p, SettingsOf(breaker), world, 1, Start(old(StateOf(breaker)), start));
            result == r && StateOf(breaker) == end.breaker && now == end.now && calls == end.calls
  {
    ghost var bcfg := SettingsOf(breaker);
    var lastException: Option<int>, totalDelay := None, 0.0;
    now, calls := start, 0;
    var attempt := 1;
    while attempt <= p.maxAttempts
      invariant attempt >= 1
      invariant attempt > 1 ==> lastException.Some?
      invariant RetryFrom(p, bcfg, world, 1, Start(old(StateOf(breaker)), start))
             == RetryFrom(p, bcfg, world, attempt, Loop(StateOf(breaker), now, lastException, totalDelay, calls))
    {
      if breaker != null {
        var allowed := breaker.AllowRequest(now);
        if !allowed {
          now := now + world(attempt).lag;
          var _ := breaker.ReadState(now);
          result := RetryExhausted(if lastException.Some? then attempt - 1 else 0, lastException);
          return;
        }
      }
      var a := world(attempt);
      now, calls := now + a.took, calls + 1;
      match a.outcome {
        case Returned(value) =>
          if breaker != null {
            breaker.RecordSuccess(now);
          }
          return Value(value), now, calls;
        case Raised(exception, retryable) =>
          if !retryable {
            return Propagated(exception), now, calls;
          }
          lastException := Some(exception);
          if breaker != null {
            breaker.RecordFailure(now);
          }
          if attempt == p.maxAttempts {
            return RetryExhausted(p.maxAttempts, lastException), now, calls;
          }
          var delay := ComputeDelay(p, attempt, a.draw);
          totalDelay := totalDelay + delay;
          now := now + delay + a.overslept;
      }
      attempt := attempt + 1;
    }
    result := if lastException.None? then NoAttempts else RetryExhausted(p.maxAttempts, lastException);
  }
}
