/** The token bucket (`aiswarm/resilience/rate_limiter.py`) with an explicit clock. */
module RateLimiter {
  import opened Common

  datatype Limits = Limits(maxTokens: real, refillRate: real)

  datatype Bucket = Bucket(tokens: real, lastRefill: real, allowed: nat, throttled: nat)

  function NewBucket(lim: Limits, now: real): Bucket {
    Bucket(lim.maxTokens, now, 0, 0)
  }

  /** Tokens added over a stretch of time. */
  function Added(lim: Limits, elapsed: real): real {
    elapsed * lim.refillRate
  }

  /** The level the bucket would have at time `now`. */
  function Level(lim: Limits, b: Bucket, now: real): real {
    Min(lim.maxTokens, b.tokens + Added(lim, now - b.lastRefill))
  }

  function Refill(lim: Limits, b: Bucket, now: real): Bucket {
    b.(tokens := Level(lim, b, now), lastRefill := now)
  }

  // ------------------------------------------------------------------
  // Runs
  // ------------------------------------------------------------------

  datatype Call = Acquire(at: real, tokens: real) | Stats(at: real)

  predicate Granted(lim: Limits, b: Bucket, call: Call) {
    call.Acquire? && Level(lim, b, call.at) >= call.tokens
  }

  function Step(lim: Limits, b: Bucket, call: Call): Bucket {
    var full := Refill(lim, b, call.at);
    if call.Stats? then full
    else if Granted(lim, b, call) then full.(tokens := full.tokens - call.tokens, allowed := full.allowed + 1)
    else full.(throttled := full.throttled + 1)
  }

  /** The tokens granted, from bucket `b` on, at times in [t1, t2]. */
  function GrantedWithin(lim: Limits, b: Bucket, calls: seq<Call>, t1: real, t2: real): real
    decreases |calls|
  {
    if calls == [] then 0.0
    else
      var call := calls[0];
      (if Granted(lim, b, call) && t1 <= call.at <= t2 then call.tokens else 0.0)
        + GrantedWithin(lim, Step(lim, b, call), calls[1..], t1, t2)
  }

  function Decisions(lim: Limits, b: Bucket, calls: seq<Call>): seq<bool>
    decreases |calls|
  {
    if calls == [] then []
    else
      (if calls[0].Acquire? then [Granted(lim, b, calls[0])] else [])
        + Decisions(lim, Step(lim, b, calls[0]), calls[1..])
  }

  function After(lim: Limits, b: Bucket, calls: seq<Call>): Bucket
    decreases |calls|
  {
    if calls == [] then b else After(lim, Step(lim, b, calls[0]), calls[1..])
  }

  function WithoutStats(calls: seq<Call>): seq<Call> {
    if calls == [] then []
    else if calls[0].Stats? then WithoutStats(calls[1..])
    else [calls[0]] + WithoutStats(calls[1..])
  }

  predicate Sane(lim: Limits) {
    lim.maxTokens >= 0.0 && lim.refillRate >= 0.0
  }

  /** A non-decreasing clock, starting no earlier than `start`. */
  predicate WellTimed(calls: seq<Call>, start: real) {
    calls == [] || (start <= calls[0].at && WellTimed(calls[1..], calls[0].at))
  }

  /** No negative requests. */
  predicate NoRefunds(calls: seq<Call>) {
    calls == [] || ((calls[0].Acquire? ==> calls[0].tokens >= 0.0) && NoRefunds(calls[1..]))
  }

  predicate InRange(lim: Limits, b: Bucket) {
    0.0 <= b.tokens <= lim.maxTokens
  }

  // ------------------------------------------------------------------
  // The level and the window bound
  // ------------------------------------------------------------------

  lemma AddedTokens(lim: Limits, d: real)
    requires Sane(lim) && d >= 0.0
    ensures Added(lim, d) >= 0.0
  {
  }

  lemma AddedSum(lim: Limits, d: real, e: real)
    ensures Added(lim, d) + Added(lim, e) == Added(lim, d + e)
  {
  }

  lemma StepInRange(lim: Limits, b: Bucket, call: Call)
    requires Sane(lim) && InRange(lim, b) && b.lastRefill <= call.at
    requires call.Acquire? ==> call.tokens >= 0.0
    ensures InRange(lim, Step(lim, b, call))
    ensures Step(lim, b, call).lastRefill == call.at
  {
    AddedTokens(lim, call.at - b.lastRefill);
  }

  /** The level never drops below zero, whatever is asked for. */
  lemma StepNotNegative(lim: Limits, b: Bucket, call: Call)
    requires Sane(lim) && b.tokens >= 0.0 && b.lastRefill <= call.at
    ensures Step(lim, b, call).tokens >= 0.0 && Step(lim, b, call).lastRefill == call.at
  {
    AddedTokens(lim, call.at - b.lastRefill);
  }

  /** The range needs requests that are not negative enough to overfill the bucket. */
  lemma InRangeIff(lim: Limits, b: Bucket, call: Call)
    requires Sane(lim) && InRange(lim, b) && b.lastRefill <= call.at && call.Acquire?
    ensures InRange(lim, Step(lim, b, call)) <==> call.tokens >= Level(lim, b, call.at) - lim.maxTokens
  {
    AddedTokens(lim, call.at - b.lastRefill);
  }

  /** Whatever the run, the level stays between zero and the capacity. */
  lemma {:induction false} LevelStaysInRange(lim: Limits, b: Bucket, calls: seq<Call>)
    requires Sane(lim) && InRange(lim, b) && WellTimed(calls, b.lastRefill) && NoRefunds(calls)
    ensures InRange(lim, After(lim, b, calls))
    ensures After(lim, b, calls).allowed + After(lim, b, calls).throttled
         == b.allowed + b.throttled + |Decisions(lim, b, calls)|
    decreases |calls|
  {
    if calls != [] {
      StepInRange(lim, b, calls[0]);
      LevelStaysInRange(lim, Step(lim, b, calls[0]), calls[1..]);
    }
  }

  /** From time `t1` on, grants up to `t2` are limited by the level at `t1` and the refill since. */
  lemma {:induction false} GrantsFromLevel(lim: Limits, b: Bucket, calls: seq<Call>, t1: real, t2: real)
    requires Sane(lim) && b.tokens >= 0.0 && b.lastRefill <= t1 <= t2 && WellTimed(calls, t1)
    ensures GrantedWithin(lim, b, calls, t1, t2) <= Level(lim, b, t1) + Added(lim, t2 - t1)
    decreases |calls|
  {
    if calls == [] || t2 < calls[0].at {
      NothingAfter(lim, b, calls, t1, t2);
      AddedTokens(lim, t1 - b.lastRefill);
      AddedTokens(lim, t2 - t1);
    } else {
      var call := calls[0];
      var b' := Step(lim, b, call);
      StepNotNegative(lim, b, call);
      GrantsShift(lim, b', calls[1..], t1, call.at, t2);
      GrantsFromLevel(lim, b', calls[1..], call.at, t2);
      StepBudget(lim, b, call);
      LevelGrows(lim, b, t1, call.at);
      AddedSum(lim, t2 - call.at, call.at - t1);
    }
  }

  /** A call's grant comes out of the level at its time; the rest is the level left. */
  lemma StepBudget(lim: Limits, b: Bucket, call: Call)
    requires Sane(lim)
    ensures Level(lim, Step(lim, b, call), call.at) <= Step(lim, b, call).tokens
    ensures Step(lim, b, call).tokens + (if Granted(lim, b, call) then call.tokens else 0.0) == Level(lim, b, call.at)
  {
    assert Added(lim, 0.0) == 0.0;
  }

  lemma LevelGrows(lim: Limits, b: Bucket, t1: real, t: real)
    requires Sane(lim) && t1 <= t
    ensures Level(lim, b, t) <= Level(lim, b, t1) + Added(lim, t - t1)
  {
    AddedTokens(lim, t - t1);
    AddedSum(lim, t1 - b.lastRefill, t - t1);
  }

  /** Calls that start at `t` do not care whether the window opened at `t` or earlier. */
  lemma {:induction false} GrantsShift(lim: Limits, b: Bucket, calls: seq<Call>, t1: real, t: real, t2: real)
    requires t1 <= t && WellTimed(calls, t)
    ensures GrantedWithin(lim, b, calls, t1, t2) == GrantedWithin(lim, b, calls, t, t2)
    decreases |calls|
  {
    if calls != [] {
      GrantsShift(lim, Step(lim, b, calls[0]), calls[1..], t1, calls[0].at, t2);
      GrantsShift(lim, Step(lim, b, calls[0]), calls[1..], t, calls[0].at, t2);
    }
  }

  lemma {:induction false} NothingAfter(lim: Limits, b: Bucket, calls: seq<Call>, t1: real, t2: real)
    requires calls != [] ==> t2 < calls[0].at && WellTimed(calls, calls[0].at)
    ensures GrantedWithin(lim, b, calls, t1, t2) == 0.0
    decreases |calls|
  {
    if calls != [] {
      NothingAfter(lim, Step(lim, b, calls[0]), calls[1..], t1, t2);
    }
  }

  /**
   * The window bound: in any run of interleaved calls, the tokens granted between two instants
   * total at most the capacity plus what the rate refills in between. A negative request counts as
   * a negative grant.
   */
  lemma {:induction false} WindowBound(lim: Limits, b: Bucket, calls: seq<Call>, t1: real, t2: real)
    requires Sane(lim) && b.tokens >= 0.0 && WellTimed(calls, b.lastRefill) && t1 <= t2
    ensures GrantedWithin(lim, b, calls, t1, t2) <= lim.maxTokens + Added(lim, t2 - t1)
    decreases |calls|
  {
    AddedTokens(lim, t2 - t1);
    if calls != [] {
      var call := calls[0];
      StepNotNegative(lim, b, call);
      if call.at < t1 {
        WindowBound(lim, Step(lim, b, call), calls[1..], t1, t2);
      } else if call.at <= t2 {
        GrantsShift(lim, b, calls, t1, call.at, t2);
        GrantsFromLevel(lim, b, calls, call.at, t2);
        AddedTokens(lim, call.at - t1);
        AddedSum(lim, t2 - call.at, call.at - t1);
      } else {
        NothingAfter(lim, b, calls, t1, t2);
      }
    }
  }

  /** `n` requests, `gap` apart, each for what has come in since the last one. */
  function Drips(lim: Limits, from: real, gap: real, n: nat): seq<Call>
    decreases n
  {
    if n == 0 then [] else [Acquire(from + gap, Added(lim, gap))] + Drips(lim, from + gap, gap, n - 1)
  }

  /** The time of the last of `n` drips. */
  function Later(from: real, gap: real, n: nat): real
    decreases n
  {
    if n == 0 then from else Later(from + gap, gap, n - 1)
  }

  /** An empty bucket grants every drip that fits into it. */
  lemma {:induction false} DripsGranted(lim: Limits, b: Bucket, from: real, gap: real, n: nat, t1: real, t2: real)
    requires Sane(lim) && gap >= 0.0 && Added(lim, gap) <= lim.maxTokens
    requires b.tokens == 0.0 && b.lastRefill == from
    requires t1 <= from && Later(from, gap, n) <= t2
    ensures WellTimed(Drips(lim, from, gap, n), from)
    ensures GrantedWithin(lim, b, Drips(lim, from, gap, n), t1, t2) == Added(lim, Later(from, gap, n) - from)
    decreases n
  {
    if n > 0 {
      var calls := Drips(lim, from, gap, n);
      var rest := Drips(lim, from + gap, gap, n - 1);
      assert calls[0] == Acquire(from + gap, Added(lim, gap)) && calls[1..] == rest;
      var b' := Step(lim, b, calls[0]);
      assert Level(lim, b, from + gap) == Added(lim, gap);
      assert b'.tokens == 0.0 && b'.lastRefill == from + gap;
      LaterGrows(from + gap, gap, n - 1);
      DripsGranted(lim, b', from + gap, gap, n - 1, t1, t2);
      AddedSum(lim, gap, Later(from, gap, n) - (from + gap));
    } else {
      assert Added(lim, 0.0) == 0.0;
    }
  }

  lemma {:induction false} LaterGrows(from: real, gap: real, n: nat)
    requires gap >= 0.0
    ensures from <= Later(from, gap, n)
    decreases n
  {
    if n > 0 { LaterGrows(from + gap, gap, n - 1); }
  }

  lemma {:induction false} LaterIs(from: real, gap: real, n: nat)
    ensures Later(from, gap, n) == from + n as real * gap
    decreases n
  {
    if n > 0 {
      LaterIs(from + gap, gap, n - 1);
      assert n as real * gap == gap + (n - 1) as real * gap;
    }
  }

  /** A window can be cut into equal gaps whose refill fits into the capacity. */
  lemma FittingGap(lim: Limits, d: real) returns (n: nat, gap: real)
    requires Sane(lim) && lim.maxTokens > 0.0 && d >= 0.0
    ensures gap >= 0.0 && n as real * gap == d && Added(lim, gap) <= lim.maxTokens
  {
    AddedTokens(lim, d);
    var whole := Added(lim, d) / lim.maxTokens;
    assert whole >= 0.0 && whole * lim.maxTokens == Added(lim, d);
    n := whole.Floor + 1;
    gap := d / n as real;
    FitArithmetic(lim, d, whole, n, gap);
  }

  lemma FitArithmetic(lim: Limits, d: real, whole: real, n: nat, gap: real)
    requires Sane(lim) && d >= 0.0 && n >= 1 && whole <= n as real
    requires whole * lim.maxTokens == Added(lim, d) && gap == d / n as real
    ensures gap >= 0.0 && n as real * gap == d && Added(lim, gap) <= lim.maxTokens
  {
    assert n as real * gap == d;
    assert Added(lim, d) == n as real * Added(lim, gap);
    assert whole * lim.maxTokens <= n as real * lim.maxTokens;
    CancelCount(n, Added(lim, gap), lim.maxTokens);
  }

  lemma CancelCount(n: nat, x: real, y: real)
    requires n >= 1 && n as real * x <= n as real * y
    ensures x <= y
  {
    assert n as real * (x - y) <= 0.0;
  }

  /** The bucket drained at `t1`, and then as fast as it refills. */
  lemma WindowFilled(lim: Limits, t1: real, t2: real) returns (calls: seq<Call>)
    requires Sane(lim) && lim.maxTokens > 0.0 && t1 <= t2
    ensures WellTimed(calls, t1) && NoRefunds(calls)
    ensures GrantedWithin(lim, NewBucket(lim, t1), calls, t1, t2) == lim.maxTokens + Added(lim, t2 - t1)
  {
    var n, gap := FittingGap(lim, t2 - t1);
    var drips := Drips(lim, t1, gap, n);
    calls := [Acquire(t1, lim.maxTokens)] + drips;
    var b := NewBucket(lim, t1);
    var b' := Step(lim, b, calls[0]);
    assert Added(lim, 0.0) == 0.0;
    assert b'.tokens == 0.0 && b'.lastRefill == t1;
    assert calls[1..] == drips;
    LaterIs(t1, gap, n);
    DripsGranted(lim, b', t1, gap, n, t1, t2);
    DripsAsk(lim, t1, gap, n);
  }

  lemma {:induction false} DripsAsk(lim: Limits, from: real, gap: real, n: nat)
    requires Sane(lim) && gap >= 0.0
    ensures NoRefunds(Drips(lim, from, gap, n))
    decreases n
  {
    if n > 0 {
      AddedTokens(lim, gap);
      assert Drips(lim, from, gap, n)[1..] == Drips(lim, from + gap, gap, n - 1);
      DripsAsk(lim, from + gap, gap, n - 1);
    }
  }

  /** A bucket without capacity grants nothing. */
  lemma {:induction false} NoCapacityNoGrants(lim: Limits, b: Bucket, calls: seq<Call>, t1: real, t2: real)
    requires lim.maxTokens == 0.0
    ensures GrantedWithin(lim, b, calls, t1, t2) <= 0.0
    decreases |calls|
  {
    if calls != [] {
      NoCapacityNoGrants(lim, Step(lim, b, calls[0]), calls[1..], t1, t2);
    }
  }

  ghost predicate BoundReached(lim: Limits, calls: seq<Call>, t1: real, t2: real) {
    WellTimed(calls, t1) && GrantedWithin(lim, NewBucket(lim, t1), calls, t1, t2) == lim.maxTokens + Added(lim, t2 - t1)
  }

  /**
   * The bound is the best one: a fresh bucket reaches it in every window, however long, unless the
   * bucket has no capacity at all and yet would refill.
   */
  lemma WindowBoundReachedIff(lim: Limits, t1: real, t2: real)
    requires Sane(lim) && t1 <= t2
    ensures (exists calls :: BoundReached(lim, calls, t1, t2))
            <==> lim.maxTokens > 0.0 || Added(lim, t2 - t1) == 0.0
  {
    AddedTokens(lim, t2 - t1);
    if lim.maxTokens > 0.0 {
      var calls := WindowFilled(lim, t1, t2);
      assert BoundReached(lim, calls, t1, t2);
    } else if Added(lim, t2 - t1) == 0.0 {
      assert BoundReached(lim, [], t1, t2);
    } else if calls :| BoundReached(lim, calls, t1, t2) {
      NoCapacityNoGrants(lim, NewBucket(lim, t1), calls, t1, t2);
    }
  }

  // ------------------------------------------------------------------
  // Exactly the requests that every window has room for
  // ------------------------------------------------------------------

  /** All tokens granted from bucket `b` on. */
  function Total(lim: Limits, b: Bucket, calls: seq<Call>): real
    decreases |calls|
  {
    if calls == [] then 0.0
    else (if Granted(lim, b, calls[0]) then calls[0].tokens else 0.0) + Total(lim, Step(lim, b, calls[0]), calls[1..])
  }

  /** The window from call `i` up to `t` has room for `tokens` more. */
  ghost predicate Room(lim: Limits, b: Bucket, calls: seq<Call>, i: nat, t: real, tokens: real)
    requires i < |calls|
  {
    Total(lim, After(lim, b, calls[..i]), calls[i..]) + tokens <= lim.maxTokens + Added(lim, t - calls[i].at)
  }

  ghost predicate RoomEverywhere(lim: Limits, b: Bucket, calls: seq<Call>, t: real, tokens: real) {
    && tokens <= lim.maxTokens
    && Total(lim, b, calls) + tokens <= b.tokens + Added(lim, t - b.lastRefill)
    && forall i | 0 <= i < |calls| :: Room(lim, b, calls, i, t, tokens)
  }

  lemma RoomShifts(lim: Limits, b: Bucket, calls: seq<Call>, i: nat, t: real, tokens: real)
    requires 0 < i < |calls|
    ensures Room(lim, b, calls, i, t, tokens) <==> Room(lim, Step(lim, b, calls[0]), calls[1..], i - 1, t, tokens)
  {
    assert calls[..i][0] == calls[0] && calls[..i][1..] == calls[1..][..i - 1];
    assert calls[i..] == calls[1..][i - 1..];
  }

  /** What the first call leaves: the windows that open at it, and at the bucket's last refill. */
  lemma RoomAtFirst(lim: Limits, b: Bucket, calls: seq<Call>, t: real, tokens: real)
    requires calls != []
    ensures var b' := Step(lim, b, calls[0]);
            Total(lim, b', calls[1..]) + tokens <= b'.tokens + Added(lim, t - b'.lastRefill)
            <==> && Room(lim, b, calls, 0, t, tokens)
                 && Total(lim, b, calls) + tokens <= b.tokens + Added(lim, t - b.lastRefill)
  {
    var call := calls[0];
    assert calls[..0] == [] && calls[0..] == calls;
    StepSpends(lim, b, call);
    AddedSum(lim, call.at - b.lastRefill, t - call.at);
  }

  lemma StepSpends(lim: Limits, b: Bucket, call: Call)
    ensures Step(lim, b, call).tokens + (if Granted(lim, b, call) then call.tokens else 0.0) == Level(lim, b, call.at)
    ensures Step(lim, b, call).lastRefill == call.at
  {
  }

  lemma {:induction false} LevelHasRoom(lim: Limits, b: Bucket, calls: seq<Call>, t: real, tokens: real)
    ensures tokens <= Level(lim, After(lim, b, calls), t) <==> RoomEverywhere(lim, b, calls, t, tokens)
    decreases |calls|
  {
    if calls != [] {
      hide Room, Granted, Step, Level;
      var b', rest := Step(lim, b, calls[0]), calls[1..];
      LevelHasRoom(lim, b', rest, t, tokens);
      RoomAtFirst(lim, b, calls, t, tokens);
      forall i | 0 < i < |calls|
        ensures Room(lim, b, calls, i, t, tokens) <==> Room(lim, b', rest, i - 1, t, tokens)
      {
        RoomShifts(lim, b, calls, i, t, tokens);
      }
      assert forall i | 0 <= i < |rest| :: Room(lim, b', rest, i, t, tokens) <==> Room(lim, b, calls, i + 1, t, tokens);
    }
  }

  /**
   * Exactly which requests are granted: after any calls on a fresh bucket, one is granted if and only
   * if every window that ends with it, opening at the start or at an earlier call, still has room for
   * it under the bound. No limiter that keeps the bound could grant more.
   */
  lemma GrantedIffRoom(lim: Limits, start: real, calls: seq<Call>, at: real, tokens: real)
    ensures Granted(lim, After(lim, NewBucket(lim, start), calls), Acquire(at, tokens))
            <==> && tokens <= lim.maxTokens
                 && Total(lim, NewBucket(lim, start), calls) + tokens <= lim.maxTokens + Added(lim, at - start)
                 && forall i | 0 <= i < |calls| :: Room(lim, NewBucket(lim, start), calls, i, at, tokens)
  {
    LevelHasRoom(lim, NewBucket(lim, start), calls, at, tokens);
  }

  lemma AddedMeans(lim: Limits, elapsed: real)
    ensures Added(lim, elapsed) == elapsed * lim.refillRate
  {
  }

  function Count(decisions: seq<bool>, which: bool): nat {
    if decisions == [] then 0 else (if decisions[0] == which then 1 else 0) + Count(decisions[1..], which)
  }

  /** The counters count the decisions: those granted, and those throttled. */
  lemma {:induction false} CountersCount(lim: Limits, b: Bucket, calls: seq<Call>)
    ensures var after, decisions := After(lim, b, calls), Decisions(lim, b, calls);
            && after.allowed == b.allowed + Count(decisions, true)
            && after.throttled == b.throttled + Count(decisions, false)
    decreases |calls|
  {
    if calls != [] {
      CountersCount(lim, Step(lim, b, calls[0]), calls[1..]);
      var decisions, rest := Decisions(lim, b, calls), Decisions(lim, Step(lim, b, calls[0]), calls[1..]);
      if calls[0].Acquire? {
        assert decisions == [Granted(lim, b, calls[0])] + rest && decisions[1..] == rest;
      } else {
        assert decisions == [] + rest == rest;
      }
    }
  }

  // ------------------------------------------------------------------
  // Observation is free
  // ------------------------------------------------------------------

  /** Two buckets that will hold the same level from `now` on. */
  ghost predicate SameFuture(lim: Limits, a: Bucket, b: Bucket, now: real) {
    && a.lastRefill <= now && b.lastRefill <= now
    && (forall t | t >= now :: Level(lim, a, t) == Level(lim, b, t))
  }

  /** Refilling early does not change any later level. */
  lemma RefillTwice(lim: Limits, b: Bucket, now: real, later: real)
    requires Sane(lim) && now <= later
    ensures Level(lim, Refill(lim, b, now), later) == Level(lim, b, later)
  {
    AddedTokens(lim, later - now);
    AddedSum(lim, now - b.lastRefill, later - now);
  }

  lemma {:induction false} ObservationIsFree(lim: Limits, a: Bucket, b: Bucket, calls: seq<Call>, now: real)
    requires Sane(lim) && SameFuture(lim, a, b, now) && WellTimed(calls, now)
    ensures Decisions(lim, a, calls) == Decisions(lim, b, WithoutStats(calls))
    ensures forall t | t >= now && (calls != [] ==> t >= calls[|calls| - 1].at) ::
              Level(lim, After(lim, a, calls), t) == Level(lim, After(lim, b, WithoutStats(calls)), t)
    decreases |calls|
  {
    if calls != [] {
      var call, rest := calls[0], calls[1..];
      var a' := Step(lim, a, call);
      assert rest != [] ==> rest[|rest| - 1] == calls[|calls| - 1];
      LastIsLatest(calls, now);
      if call.Stats? {
        forall t | t >= call.at
          ensures Level(lim, a', t) == Level(lim, b, t)
        {
          RefillTwice(lim, a, call.at, t);
        }
        ObservationIsFree(lim, a', b, rest, call.at);
        assert Decisions(lim, a, calls) == Decisions(lim, a', rest);
      } else {
        var b' := Step(lim, b, call);
        assert Level(lim, a, call.at) == Level(lim, b, call.at);
        assert a'.tokens == b'.tokens && a'.lastRefill == b'.lastRefill;
        var bare := WithoutStats(calls);
        assert bare[0] == call && bare[1..] == WithoutStats(rest);
        ObservationIsFree(lim, a', b', rest, call.at);
      }
    }
  }

  lemma {:induction false} LastIsLatest(calls: seq<Call>, now: real)
    requires WellTimed(calls, now)
    ensures calls != [] ==> calls[0].at <= calls[|calls| - 1].at
  {
    if |calls| > 1 {
      LastIsLatest(calls[1..], calls[0].at);
    }
  }

  /** Inserting `stats` calls anywhere changes no decision: only the acquires of a run matter. */
  lemma StatsChangeNoDecision(lim: Limits, b: Bucket, calls: seq<Call>, others: seq<Call>)
    requires Sane(lim) && WellTimed(calls, b.lastRefill) && WellTimed(others, b.lastRefill)
    requires WithoutStats(calls) == WithoutStats(others)
    ensures Decisions(lim, b, calls) == Decisions(lim, b, others)
  {
    ObservationIsFree(lim, b, b, calls, b.lastRefill);
    ObservationIsFree(lim, b, b, others, b.lastRefill);
  }

  // ------------------------------------------------------------------
  // The limiter object
  // ------------------------------------------------------------------

  datatype LimiterStats = LimiterStats(name: string, available: real, limits: Limits, allowed: nat, throttled: nat)

  class TokenBucketRateLimiter {
    const name: string
    const maxTokens: real
    const refillRate: real
    var tokens: real
    var lastRefill: real
    var totalAllowed: nat
    var totalThrottled: nat

    constructor (name: string, maxTokens: real, refillRate: real, now: real)
      ensures Bounds() == Limits(maxTokens, refillRate) && this.name == name
      ensures State() == NewBucket(Bounds(), now)
    {
      this.name, this.maxTokens, this.refillRate := name, maxTokens, refillRate;
      tokens, lastRefill := maxTokens, now;
      totalAllowed, totalThrottled := 0, 0;
    }

    function Bounds(): Limits {
      Limits(maxTokens, refillRate)
    }

    function State(): Bucket
      reads this
    {
      Bucket(tokens, lastRefill, totalAllowed, totalThrottled)
    }

    method TopUp(now: real)
      modifies this`tokens, this`lastRefill
      ensures State() == Refill(Bounds(), old(State()), now)
    {
      var elapsed := now - lastRefill;
      tokens := Min(maxTokens, tokens + elapsed * refillRate);
      lastRefill := now;
    }

    method TryAcquire(now: real, requested: real) returns (granted: bool)
      modifies this
      ensures granted == Granted(Bounds(), old(State()), Acquire(now, requested))
      ensures State() == Step(Bounds(), old(State()), Acquire(now, requested))
    {
      TopUp(now);
      if tokens >= requested {
        tokens := tokens - requested;
        totalAllowed := totalAllowed + 1;
        return true;
      }
      totalThrottled := totalThrottled + 1;
      return false;
    }

    method GetStats(now: real) returns (stats: LimiterStats)
      modifies this
      ensures State() == Step(Bounds(), old(State()), Stats(now))
      ensures stats == LimiterStats(name, tokens, Bounds(), totalAllowed, totalThrottled)
    {
      TopUp(now);
      stats := LimiterStats(name, tokens, Limits(maxTokens, refillRate), totalAllowed, totalThrottled);
    }
  }
}
