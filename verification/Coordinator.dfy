/** The approval gate and the staging protocol (`aiswarm/orchestration/coordinator.py`). */
module Coordinators {
  import opened Common
  import opened Orders
  import opened RiskToken
  import opened RiskEngines
  import opened Memory

  // ------------------------------------------------------------------
  // One call, on values
  // ------------------------------------------------------------------

  /** What mandate validation says: not configured, refused, or covered by a mandate. */
  datatype MandateCheck = NoValidator | NotCovered | CoveredBy(mandate: Mandate, tracker: Tracker)

  /**
   * One coordination round: the session gate, the order allocated from the selected signal (none if
   * no signal was selected), the risk conditions, and the mandate check.
   */
  datatype Round = Round(sessionOpen: bool, intent: Option<Order>, cond: Conditions, check: MandateCheck)

  datatype Gate = Gate(limits: Limits, mac: Mac, staging: bool)

  function Stamped(order: Order, check: MandateCheck): Order {
    if check.CoveredBy? then order.(mandateId := Some(check.mandate.mandateId)) else order
  }

  /** Every guard that applies to this round passes. */
  predicate PassesGuards(g: Gate, round: Round) {
    && round.sessionOpen && round.intent.Some? && !round.check.NotCovered?
    && WithinLimits(g.limits, round.cond, Stamped(round.intent.value, round.check))
    && (round.check.CoveredBy? ==>
          WithinBudget(round.check.mandate.budget, round.check.tracker, Stamped(round.intent.value, round.check)))
  }

  /** A missing secret is only noticed once the global limits have passed and a token is needed. */
  predicate NeedsToken(g: Gate, round: Round) {
    && round.sessionOpen && round.intent.Some? && !round.check.NotCovered?
    && WithinLimits(g.limits, round.cond, Stamped(round.intent.value, round.check))
  }

  function ApprovedOrder(g: Gate, round: Round, sec: Secrets, now: real): Order
    requires round.intent.Some? && sec.current != "" && now >= 0.0
  {
    var order := Stamped(round.intent.value, round.check);
    Signed(order, SignRiskToken(sec, g.mac, order.orderId, now).value)
  }

  type Staged = map<string, Order>

  /** `order.risk_approval_token and verify_risk_token(...)`. */
  function TokenValid(g: Gate, order: Order, sec: Secrets, now: real): Result<bool, TokenError> {
    if order.riskToken.None? || order.riskToken.value == "" then Ok(false)
    else VerifyRiskToken(sec, g.mac, order.riskToken.value, order.orderId, now)
  }

  datatype Call =
    | Coordinate(round: Round)
    | ListStaged
    | Execute(orderId: string)
    | Reject(orderId: string)

  /** A call at an instant, with the secrets configured then. */
  datatype Op = Op(call: Call, sec: Secrets, now: real)

  function StagedAfter(g: Gate, staged: Staged, op: Op): Staged {
    match op.call
    case Coordinate(round) =>
      if op.now >= 0.0 && PassesGuards(g, round) && op.sec.current != "" && g.staging then
        var order := ApprovedOrder(g, round, op.sec, op.now);
        staged[order.orderId := order.(status := OrderStatus.Staged)]
      else staged
    case ListStaged =>
      if exists o | o in staged :: TokenValid(g, staged[o], op.sec, op.now).Err? then staged
      else map o | o in staged && TokenValid(g, staged[o], op.sec, op.now) == Ok(true) :: staged[o]
    case Execute(o) => staged - {o}
    case Reject(o) => staged - {o}
  }

  /** The order handed to the caller for execution, if any. */
  function HandedOut(g: Gate, staged: Staged, op: Op): Option<Order> {
    match op.call
    case Coordinate(round) =>
      if op.now >= 0.0 && PassesGuards(g, round) && op.sec.current != "" && !g.staging
      then Some(ApprovedOrder(g, round, op.sec, op.now)) else None
    case Execute(o) =>
      if o in staged && TokenValid(g, staged[o], op.sec, op.now) == Ok(true)
      then Some(staged[o].(status := OrderStatus.Approved)) else None
    case _ => None
  }

  // ------------------------------------------------------------------
  // Runs, with where every order came from and where it went
  // ------------------------------------------------------------------

  /** The round that approved an order, and when and with which secrets it was signed. */
  datatype Origin = Origin(round: Round, sec: Secrets, at: real)

  datatype Exit = Executed | Refused | Dropped

  /** How a staged order left the store, and the call that took it out. */
  datatype Departure = Departure(exit: Exit, op: Op)

  datatype Release = Release(order: Order, sec: Secrets, at: real, fromStaging: bool)

  datatype Trace = Trace(
    staged: Staged,
    origins: map<string, Origin>,
    everStaged: set<string>,
    exits: map<string, Departure>,
    released: seq<Release>
  )

  const QUIET := Trace(map[], map[], {}, map[], [])

  predicate Approves(g: Gate, op: Op) {
    op.call.Coordinate? && op.now >= 0.0 && PassesGuards(g, op.call.round) && op.sec.current != ""
  }

  /** How an order that this call takes out of the store leaves it. */
  function ExitOf(g: Gate, staged: Staged, op: Op): Departure {
    Departure(if op.call.Reject? then Refused
              else if op.call.Execute? && HandedOut(g, staged, op).Some? then Executed
              else Dropped, op)
  }

  function Next(g: Gate, t: Trace, op: Op): Trace {
    var staged := StagedAfter(g, t.staged, op);
    var handed := HandedOut(g, t.staged, op);
    Trace(
      staged,
      if Approves(g, op) then t.origins[op.call.round.intent.value.orderId := Origin(op.call.round, op.sec, op.now)]
      else t.origins,
      t.everStaged + staged.Keys,
      t.exits + map o | o in t.staged && o !in staged :: ExitOf(g, t.staged, op),
      if handed.Some? then t.released + [Release(handed.value, op.sec, op.now, op.call.Execute?)] else t.released)
  }

  function Run(g: Gate, ops: seq<Op>): Trace {
    if ops == [] then QUIET else Next(g, Run(g, ops[..|ops| - 1]), ops[|ops| - 1])
  }

  /** The allocator gives every order a new id. */
  predicate FreshIds(g: Gate, ops: seq<Op>) {
    ops == [] ||
    (FreshIds(g, ops[..|ops| - 1])
     && (Approves(g, ops[|ops| - 1]) ==>
           ops[|ops| - 1].call.round.intent.value.orderId !in Run(g, ops[..|ops| - 1]).origins))
  }

  // ------------------------------------------------------------------
  // Protocol safety
  // ------------------------------------------------------------------

  /** An approved order as its origin explains it: it passed every guard and was signed for its own id. */
  ghost predicate WellApproved(g: Gate, order: Order, origin: Origin) {
    && PassesGuards(g, origin.round) && origin.sec.current != "" && origin.at >= 0.0
    && order == ApprovedOrder(g, origin.round, origin.sec, origin.at)
    && order.orderId == origin.round.intent.value.orderId
  }

  /** What is staged is exactly what an approval put there. */
  ghost predicate StagedWell(g: Gate, t: Trace) {
    forall o | o in t.staged ::
      && o in t.origins && t.staged[o].orderId == o && t.staged[o].status.Staged?
      && WellApproved(g, t.staged[o].(status := OrderStatus.Approved), t.origins[o])
  }

  /** Every order ever staged is in the store or has left it, never both; nothing else is in either. */
  ghost predicate LeftOnce(t: Trace) {
    && t.staged.Keys !! t.exits.Keys
    && t.staged.Keys + t.exits.Keys == t.everStaged
    && t.everStaged <= t.origins.Keys
  }

  /** A released order: approved by its origin, and re-verified on release if it had been staged. */
  ghost predicate ReleasedWell(g: Gate, t: Trace, r: Release) {
    && r.order.orderId in t.origins
    && WellApproved(g, r.order, t.origins[r.order.orderId])
    && (r.fromStaging ==>
          && r.order.orderId in t.exits && t.exits[r.order.orderId].exit.Executed?
          && VerifyRiskToken(r.sec, g.mac, r.order.riskToken.value, r.order.orderId, r.at) == Ok(true))
    && (!r.fromStaging ==> r.order.orderId !in t.everStaged)
  }

  ghost predicate AllReleasedWell(g: Gate, t: Trace) {
    forall i | 0 <= i < |t.released| :: ReleasedWell(g, t, t.released[i])
  }

  ghost predicate HandedOutOnce(t: Trace) {
    forall i, j | 0 <= i < j < |t.released| :: t.released[i].order.orderId != t.released[j].order.orderId
  }

  ghost predicate Safe(g: Gate, t: Trace) {
    StagedWell(g, t) && LeftOnce(t) && AllReleasedWell(g, t) && HandedOutOnce(t)
  }

  predicate Fresh(g: Gate, t: Trace, op: Op) {
    Approves(g, op) ==> op.call.round.intent.value.orderId !in t.origins
  }

  lemma NextStagedWell(g: Gate, t: Trace, op: Op)
    requires StagedWell(g, t) && Fresh(g, t, op)
    ensures StagedWell(g, Next(g, t, op))
  {
    var t' := Next(g, t, op);
    forall o | o in t'.staged
      ensures o in t'.origins && t'.staged[o].orderId == o && t'.staged[o].status.Staged?
      ensures WellApproved(g, t'.staged[o].(status := OrderStatus.Approved), t'.origins[o])
    {
      if o in t.staged && t'.staged[o] == t.staged[o] {
        assert t'.origins[o] == t.origins[o];
      } else {
        var order := ApprovedOrder(g, op.call.round, op.sec, op.now);
        assert t'.staged[o].(status := OrderStatus.Approved) == order;
      }
    }
  }

  /** Only an approval puts an order into the store, under its own id. */
  lemma StagedGrows(g: Gate, staged: Staged, op: Op)
    ensures StagedAfter(g, staged, op).Keys
         <= staged.Keys + (if Approves(g, op) then {op.call.round.intent.value.orderId} else {})
  {
  }

  lemma NextLeftOnce(g: Gate, t: Trace, op: Op)
    requires LeftOnce(t) && Fresh(g, t, op)
    ensures LeftOnce(Next(g, t, op))
  {
    var staged := StagedAfter(g, t.staged, op);
    StagedGrows(g, t.staged, op);
    assert staged.Keys - t.staged.Keys !! t.exits.Keys;
    LeaveOnce(t.staged, staged, t.exits, ExitOf(g, t.staged, op));
    assert t.everStaged + staged.Keys
        == staged.Keys + (t.exits.Keys + (t.staged.Keys - staged.Keys));
  }

  lemma ExitsKept(g: Gate, t: Trace, op: Op)
    requires LeftOnce(t)
    ensures forall o | o in t.exits :: o in Next(g, t, op).exits && Next(g, t, op).exits[o] == t.exits[o]
  {
  }

  lemma LeaveOnce(staged: Staged, staged': Staged, exits: map<string, Departure>, e: Departure)
    requires staged.Keys !! exits.Keys && staged'.Keys - staged.Keys !! exits.Keys
    ensures var exits' := exits + map o | o in staged && o !in staged' :: e;
            && exits'.Keys == exits.Keys + (staged.Keys - staged'.Keys) && staged'.Keys !! exits'.Keys
            && forall o | o in exits :: exits'[o] == exits[o]
  {
  }

  lemma NextReleased(g: Gate, t: Trace, op: Op, i: nat)
    requires Safe(g, t) && Fresh(g, t, op) && i < |t.released|
    ensures ReleasedWell(g, Next(g, t, op), t.released[i])
  {
    assert ReleasedWell(g, t, t.released[i]);
    ExitsKept(g, t, op);
    StagedGrows(g, t.staged, op);
  }

  lemma NewRelease(g: Gate, t: Trace, op: Op)
    requires Safe(g, t) && Fresh(g, t, op) && HandedOut(g, t.staged, op).Some?
    ensures var t' := Next(g, t, op);
            && |t'.released| == |t.released| + 1
            && t'.released[..|t.released|] == t.released
            && ReleasedWell(g, t', t'.released[|t.released|])
            && forall i | 0 <= i < |t.released| ::
                 t.released[i].order.orderId != t'.released[|t.released|].order.orderId
  {
    var t' := Next(g, t, op);
    var r := t'.released[|t.released|];
    if op.call.Execute? {
      var o := op.call.orderId;
      assert t'.origins == t.origins && o !in t'.staged && t'.exits[o].exit.Executed?;
      assert r.order == t.staged[o].(status := OrderStatus.Approved);
    }
    forall i | 0 <= i < |t.released|
      ensures t.released[i].order.orderId != r.order.orderId
    {
      assert ReleasedWell(g, t, t.released[i]);
    }
  }

  lemma NoRelease(g: Gate, t: Trace, op: Op)
    ensures HandedOut(g, t.staged, op).None? ==> Next(g, t, op).released == t.released
  {
  }

  lemma NextReleases(g: Gate, t: Trace, op: Op, t': Trace)
    requires Safe(g, t) && Fresh(g, t, op) && t' == Next(g, t, op)
    ensures AllReleasedWell(g, t') && HandedOutOnce(t')
  {
    hide Next, HandedOut, ReleasedWell, StagedWell, LeftOnce;
    forall i | 0 <= i < |t.released|
      ensures ReleasedWell(g, t', t.released[i])
    {
      NextReleased(g, t, op, i);
    }
    NoRelease(g, t, op);
    if HandedOut(g, t.staged, op).Some? {
      NewRelease(g, t, op);
      assert forall i | 0 <= i < |t.released| :: t'.released[i] == t.released[i];
    }
  }

  lemma NextSafe(g: Gate, t: Trace, op: Op, t': Trace)
    requires Safe(g, t) && Fresh(g, t, op) && t' == Next(g, t, op)
    ensures Safe(g, t')
  {
    NextStagedWell(g, t, op);
    NextLeftOnce(g, t, op);
    NextReleases(g, t, op, t');
  }

  /**
   * Safety of the staging protocol over every run with fresh ids: a staged order leaves the store
   * exactly once, and whatever is handed out passed every guard when it was approved, carries a token
   * signed for its own id, was re-verified if it was staged, and is handed out only once.
   */
  lemma {:induction false} StagingSafe(g: Gate, ops: seq<Op>)
    requires FreshIds(g, ops)
    ensures Safe(g, Run(g, ops))
  {
    if ops != [] {
      var before := Run(g, ops[..|ops| - 1]);
      StagingSafe(g, ops[..|ops| - 1]);
      NextSafe(g, before, ops[|ops| - 1], Next(g, before, ops[|ops| - 1]));
    }
  }

  /** An exit is final: the order never comes back, and how it left never changes. */
  lemma {:induction false} ExitsAreFinal(g: Gate, ops: seq<Op>, more: seq<Op>, o: string)
    requires FreshIds(g, ops + more) && o in Run(g, ops).exits
    ensures var t' := Run(g, ops + more);
            o !in t'.staged && o in t'.exits && t'.exits[o] == Run(g, ops).exits[o]
  {
    StagingSafe(g, ops + more);
    if more == [] {
      assert ops + more == ops;
    } else {
      var n := |more| - 1;
      assert (ops + more)[..|ops + more| - 1] == ops + more[..n];
      ExitsAreFinal(g, ops, more[..n], o);
      StagingSafe(g, ops + more[..n]);
      ExitsKept(g, Run(g, ops + more[..n]), more[n]);
    }
  }

  // ------------------------------------------------------------------
  // What is approved
  // ------------------------------------------------------------------

  /**
   * Everything a round must bring for its order to be approved: an open session, an order, no refusal
   * by the mandate rules, the global limits, and the budget of the mandate that covers it, if any.
   */
  ghost predicate Passable(g: Gate, round: Round) {
    && round.sessionOpen && round.intent.Some? && round.check != NotCovered
    && WithinLimits(g.limits, round.cond, round.intent.value)
    && (round.check.CoveredBy? ==> WithinBudget(round.check.mandate.budget, round.check.tracker, round.intent.value))
  }

  lemma PassesIffPassable(g: Gate, round: Round)
    ensures PassesGuards(g, round) <==> Passable(g, round)
  {
  }

  /** The approved order: the intent with the mandate's id, a token of its own, and the status approved. */
  ghost predicate ApprovedFrom(order: Order, round: Round) {
    && round.intent.Some? && order.riskToken.Some? && order.riskToken.value != ""
    && order == round.intent.value.(
         mandateId := if round.check.CoveredBy? then Some(round.check.mandate.mandateId)
                      else round.intent.value.mandateId,
         riskToken := order.riskToken, status := Approved)
  }

  lemma WellApprovedMeans(g: Gate, order: Order, origin: Origin)
    requires WellApproved(g, order, origin)
    ensures Passable(g, origin.round) && ApprovedFrom(order, origin.round)
  {
    PassesIffPassable(g, origin.round);
  }

  /** Over every run: whatever is handed out, or staged, is the order of a round that brought everything. */
  lemma ReleasedAsIntended(g: Gate, ops: seq<Op>)
    requires FreshIds(g, ops)
    ensures var t := Run(g, ops);
            && (forall i | 0 <= i < |t.released| ::
                  var order := t.released[i].order;
                  && order.orderId in t.origins && Passable(g, t.origins[order.orderId].round)
                  && ApprovedFrom(order, t.origins[order.orderId].round))
            && (forall o | o in t.staged ::
                  && o in t.origins && Passable(g, t.origins[o].round) && t.staged[o].status == OrderStatus.Staged
                  && ApprovedFrom(t.staged[o].(status := Approved), t.origins[o].round))
  {
    hide Passable, ApprovedFrom, Run, WellApproved, FreshIds;
    StagingSafe(g, ops);
    var t := Run(g, ops);
    forall i | 0 <= i < |t.released|
      ensures var order := t.released[i].order;
              && order.orderId in t.origins && Passable(g, t.origins[order.orderId].round)
              && ApprovedFrom(order, t.origins[order.orderId].round)
    {
      assert ReleasedWell(g, t, t.released[i]);
      WellApprovedMeans(g, t.released[i].order, t.origins[t.released[i].order.orderId]);
    }
    forall o | o in t.staged
      ensures && o in t.origins && Passable(g, t.origins[o].round) && t.staged[o].status == OrderStatus.Staged
              && ApprovedFrom(t.staged[o].(status := Approved), t.origins[o].round)
    {
      WellApprovedMeans(g, t.staged[o].(status := Approved), t.origins[o]);
    }
  }

  /** And every such round gets its order through: handed out at once, or staged in staging mode. */
  lemma RoundIff(g: Gate, t: Trace, round: Round, sec: Secrets, now: real)
    requires now >= 0.0
    ensures var t' := Next(g, t, Op(Coordinate(round), sec, now));
            && (|t'.released| == |t.released| + 1 <==> Passable(g, round) && sec.current != "" && !g.staging)
            && (t'.released == t.released || |t'.released| == |t.released| + 1)
            && (Passable(g, round) && sec.current != "" && g.staging ==>
                  && round.intent.value.orderId in t'.staged
                  && ApprovedFrom(t'.staged[round.intent.value.orderId].(status := Approved), round))
            && (!(Passable(g, round) && sec.current != "" && g.staging) ==> t'.staged == t.staged)
  {
    PassesIffPassable(g, round);
    hide PassesGuards, WithinLimits, WithinBudget, ApprovedFrom, ApprovedOrder;
    if round.intent.Some? && sec.current != "" {
      ApprovedOrderIs(g, round, sec, now);
    }
  }

  lemma ApprovedOrderIs(g: Gate, round: Round, sec: Secrets, now: real)
    requires round.intent.Some? && sec.current != "" && now >= 0.0
    ensures var order := ApprovedOrder(g, round, sec, now);
            && ApprovedFrom(order, round) && order.status == Approved && order.orderId == round.intent.value.orderId
            && order.(status := OrderStatus.Staged).(status := Approved) == order
  {
  }

  // ------------------------------------------------------------------
  // Why an order left
  // ------------------------------------------------------------------

  /** The token of an order approved like this can be told apart from others and is still in time. */
  predicate Timely(o: string, origin: Origin, now: real)
    requires origin.at >= 0.0
  {
    NoColon(o) && NoColon(KeyId(origin.sec)) && 0.0 <= now - Stamp(origin.at) as real <= 300.0
  }

  predicate Accepts(sec: Secrets, origin: Origin) {
    origin.sec.current == sec.current || origin.sec.current == sec.previous
  }

  /** What checking a staged order's token comes to, at any time and under any secrets. */
  ghost predicate Checks(g: Gate, t: Trace, o: string, sec: Secrets, now: real)
    requires o in t.staged
  {
    && o in t.origins && t.origins[o].at >= 0.0
    && TokenValid(g, t.staged[o], sec, now)
       == if sec.current != "" then Ok(Timely(o, t.origins[o], now) && Accepts(sec, t.origins[o]))
          else if Timely(o, t.origins[o], now) then Err(SecretNotSet) else Ok(false)
  }

  lemma StagedChecks(g: Gate, t: Trace, o: string, sec: Secrets, now: real)
    requires StagedWell(g, t) && Signs(g.mac) && o in t.staged
    ensures Checks(g, t, o, sec, now)
  {
    hide PassesGuards, Signs;
    var origin := t.origins[o];
    assert WellApproved(g, t.staged[o].(status := OrderStatus.Approved), origin);
    if sec.current != "" {
      TokenRoundTrip(origin.sec, sec, g.mac, o, o, origin.at, now);
    } else {
      TokenWithoutSecret(origin.sec, sec, g.mac, o, o, origin.at, now);
    }
  }

  /**
   * In every reachable state a staged order's token verifies exactly while it is in time and signed
   * with an accepted secret. With the secret unset it is an error exactly while it is in time.
   */
  lemma StagedTokens(g: Gate, ops: seq<Op>, o: string, sec: Secrets, now: real)
    requires FreshIds(g, ops) && Signs(g.mac) && o in Run(g, ops).staged
    ensures Checks(g, Run(g, ops), o, sec, now)
  {
    StagingSafe(g, ops);
    StagedChecks(g, Run(g, ops), o, sec, now);
  }

  /** The order's token was good for execution, as far as anybody could tell. */
  predicate StillGood(o: string, origin: Origin, sec: Secrets, now: real)
    requires origin.at >= 0.0
  {
    Timely(o, origin, now) && (sec.current == "" || Accepts(sec, origin))
  }

  /** An exit with its reason: executed while good, rejected by hand, or dropped. */
  ghost predicate Deserved(o: string, origin: Origin, d: Departure) {
    && origin.at >= 0.0
    && (d.op.call == Execute(o) || d.op.call == Reject(o) || d.op.call == ListStaged)
    && (d.exit.Refused? <==> d.op.call == Reject(o))
    && (d.exit.Executed? <==>
          d.op.call == Execute(o) && d.op.sec.current != "" && StillGood(o, origin, d.op.sec, d.op.now))
    && (d.exit.Dropped? ==>
          (StillGood(o, origin, d.op.sec, d.op.now) <==>
             d.op.call == Execute(o) && d.op.sec.current == "" && Timely(o, origin, d.op.now)))
  }

  ghost predicate AllDeserved(t: Trace) {
    forall o | o in t.exits :: o in t.origins && Deserved(o, t.origins[o], t.exits[o])
  }

  lemma LeavingDeserved(g: Gate, t: Trace, op: Op, o: string)
    requires StagedWell(g, t) && Signs(g.mac)
    requires o in t.staged && o !in StagedAfter(g, t.staged, op)
    ensures o in t.origins && Deserved(o, t.origins[o], ExitOf(g, t.staged, op))
  {
    hide TokenValid, StagedWell, Timely, Accepts, Signs;
    StagedChecks(g, t, o, op.sec, op.now);
  }

  lemma NextDeserved(g: Gate, t: Trace, op: Op, t': Trace)
    requires Safe(g, t) && Fresh(g, t, op) && Signs(g.mac) && AllDeserved(t) && t' == Next(g, t, op)
    ensures AllDeserved(t')
  {
    hide Deserved, StagedAfter, HandedOut, StagedWell, Signs, AllReleasedWell, HandedOutOnce, ExitOf;
    ExitsKept(g, t, op);
    forall o | o in t'.exits
      ensures o in t'.origins && Deserved(o, t'.origins[o], t'.exits[o])
    {
      if o !in t.exits {
        LeavingDeserved(g, t, op, o);
      }
      assert t'.origins[o] == t.origins[o];
    }
  }

  /**
   * Why every order left, over every run: it was executed exactly if its token verified, refused
   * exactly if it was rejected by hand, and otherwise dropped. A dropped order was still good in just
   * one case: it was executed within its time while the secret was unset.
   */
  lemma {:induction false} DeparturesDeserved(g: Gate, ops: seq<Op>)
    requires FreshIds(g, ops) && Signs(g.mac)
    ensures AllDeserved(Run(g, ops))
  {
    if ops != [] {
      var before := Run(g, ops[..|ops| - 1]);
      StagingSafe(g, ops[..|ops| - 1]);
      DeparturesDeserved(g, ops[..|ops| - 1]);
      NextDeserved(g, before, ops[|ops| - 1], Next(g, before, ops[|ops| - 1]));
    }
  }

  /** An order without a token is never handed out of staging, nor kept when the store is listed. */
  lemma NoTokenNoRelease(g: Gate, staged: Staged, o: string, sec: Secrets, now: real)
    requires o in staged && (staged[o].riskToken.None? || staged[o].riskToken.value == "")
    ensures HandedOut(g, staged, Op(Execute(o), sec, now)).None?
    ensures (forall p | p in staged :: TokenValid(g, staged[p], sec, now).Ok?) ==>
              o !in StagedAfter(g, staged, Op(ListStaged, sec, now))
  {
  }

  /** Listing with a secret set keeps exactly the orders that are still good. */
  lemma ListingKeepsGood(g: Gate, ops: seq<Op>, o: string, sec: Secrets, now: real)
    requires FreshIds(g, ops) && Signs(g.mac) && o in Run(g, ops).staged && sec.current != ""
    ensures var t := Run(g, ops);
            && o in t.origins && t.origins[o].at >= 0.0
            && (o in StagedAfter(g, t.staged, Op(ListStaged, sec, now)) <==> StillGood(o, t.origins[o], sec, now))
  {
    hide TokenValid, Timely, Run, FreshIds, Signs;
    var staged := Run(g, ops).staged;
    forall p | p in staged
      ensures TokenValid(g, staged[p], sec, now).Ok?
    {
      StagedTokens(g, ops, p, sec, now);
    }
    StagedTokens(g, ops, o, sec, now);
  }

  lemma ExecuteWithoutSecret(g: Gate, t: Trace, o: string, op: Op)
    requires o in t.staged && Checks(g, t, o, op.sec, op.now) && op.sec.current == "" && op.call == Execute(o)
    ensures var t' := Next(g, t, op);
            && (Timely(o, t.origins[o], op.now) <==> TokenValid(g, t.staged[o], op.sec, op.now).Err?)
            && o !in t'.staged && o in t'.exits && t'.exits[o] == Departure(Dropped, op) && t'.released == t.released
  {
    hide TokenValid, Timely;
    assert HandedOut(g, t.staged, op).None?;
  }

  /** That case does arise: the order is lost, although nothing is wrong with it. */
  lemma MissingSecretLoses(g: Gate, ops: seq<Op>, o: string, sec: Secrets, now: real)
    requires FreshIds(g, ops) && Signs(g.mac) && o in Run(g, ops).staged && sec.current == ""
    ensures var op := Op(Execute(o), sec, now);
            var t, t' := Run(g, ops), Next(g, Run(g, ops), op);
            && o in t.origins && t.origins[o].at >= 0.0
            && (Timely(o, t.origins[o], now) <==> TokenValid(g, t.staged[o], sec, now).Err?)
            && o !in t'.staged && o in t'.exits && t'.exits[o] == Departure(Dropped, op) && t'.released == t.released
  {
    hide TokenValid, Timely, Next, Signs, FreshIds;
    StagedTokens(g, ops, o, sec, now);
    ExecuteWithoutSecret(g, Run(g, ops), o, Op(Execute(o), sec, now));
  }

  /** A staged order is executed within the token's life: at most 300 seconds after its approval. */
  lemma StagedOrdersAreRecent(g: Gate, ops: seq<Op>, i: nat)
    requires FreshIds(g, ops) && Signs(g.mac)
    requires i < |Run(g, ops).released| && Run(g, ops).released[i].fromStaging
    ensures var t := Run(g, ops);
            var r := t.released[i];
            && r.order.orderId in t.origins
            && var origin := t.origins[r.order.orderId];
               && origin.at >= 0.0
               && 0.0 <= r.at - Stamp(origin.at) as real <= 300.0
               && (origin.sec.current == r.sec.current || origin.sec.current == r.sec.previous)
  {
    StagingSafe(g, ops);
    var t := Run(g, ops);
    var r := t.released[i];
    assert ReleasedWell(g, t, r);
    var origin := t.origins[r.order.orderId];
    TokenRoundTrip(origin.sec, r.sec, g.mac, r.order.orderId, r.order.orderId, origin.at, r.at);
  }

  // ------------------------------------------------------------------
  // The coordinator object
  // ------------------------------------------------------------------

  class Coordinator {
    const engine: RiskEngine
    const stagingEnabled: bool
    var stagedOrders: Staged

    constructor (engine: RiskEngine, stagingEnabled: bool)
      ensures this.engine == engine && this.stagingEnabled == stagingEnabled && stagedOrders == map[]
    {
      this.engine, this.stagingEnabled, stagedOrders := engine, stagingEnabled, map[];
    }

    function Settings(): Gate {
      Gate(engine.limits, engine.mac, stagingEnabled)
    }

    method CoordinateRound(round: Round, sec: Secrets, now: real) returns (r: Result<Option<Order>, TokenError>)
      requires now >= 0.0
      modifies this, engine
      ensures stagedOrders == StagedAfter(Settings(), old(stagedOrders), Op(Coordinate(round), sec, now))
      ensures r.Err? <==> NeedsToken(Settings(), round) && sec.current == ""
      ensures r.Ok? ==> r.value == HandedOut(Settings(), old(stagedOrders), Op(Coordinate(round), sec, now))
    {
      if !round.sessionOpen {
        return Ok(None);
      }
      if round.intent.None? {
        return Ok(None);
      }
      var order := round.intent.value;
      var approval;
      match round.check {
        case NotCovered => return Ok(None);
        case CoveredBy(mandate, tracker) =>
          order := order.(mandateId := Some(mandate.mandateId));
          approval := engine.ValidateWithMandate(order, round.cond, mandate, tracker, sec, now);
        case NoValidator =>
          approval := engine.Validate(order, round.cond, sec, now);
      }
      if approval.Err? {
        return Err(approval.error);
      }
      if approval.value.Rejection? {
        return Ok(None);
      }
      if stagingEnabled {
        var staged := approval.value.order.(status := OrderStatus.Staged);
        stagedOrders := stagedOrders[staged.orderId := staged];
        return Ok(None);
      }
      return Ok(Some(approval.value.order));
    }

    /** Lists the staged orders whose token still verifies, and forgets the others. */
    method GetStagedOrders(sec: Secrets, now: real) returns (r: Result<set<Order>, TokenError>)
      modifies this
      ensures stagedOrders == StagedAfter(Settings(), old(stagedOrders), Op(ListStaged, sec, now))
      ensures r.Err? <==>
                exists o | o in old(stagedOrders) :: TokenValid(Settings(), old(stagedOrders)[o], sec, now).Err?
      ensures r.Ok? ==> r.value == stagedOrders.Values
    {
      var rest, expired := stagedOrders.Keys, {};
      while rest != {}
        invariant stagedOrders == old(stagedOrders) && rest <= stagedOrders.Keys && expired <= stagedOrders.Keys
        invariant forall o | o in stagedOrders && o !in rest ::
          var valid := TokenValid(Settings(), stagedOrders[o], sec, now);
          valid.Ok? && (valid.value <==> o !in expired)
        invariant expired !! rest
        decreases rest
      {
        var o :| o in rest;
        var valid := TokenValid(Settings(), stagedOrders[o], sec, now);
        if valid.Err? {
          return Err(valid.error);
        }
        if !valid.value {
          expired := expired + {o};
        }
        rest := rest - {o};
      }
      stagedOrders := stagedOrders - expired;
      return Ok(stagedOrders.Values);
    }

    /** Takes the order out of the store first; an expired token means it is not executed at all. */
    method ExecuteStaged(orderId: string, sec: Secrets, now: real) returns (r: Result<Option<Order>, TokenError>)
      modifies this
      ensures stagedOrders == StagedAfter(Settings(), old(stagedOrders), Op(Execute(orderId), sec, now))
      ensures r.Err? <==>
                orderId in old(stagedOrders) && TokenValid(Settings(), old(stagedOrders)[orderId], sec, now).Err?
      ensures r.Ok? ==> r.value == HandedOut(Settings(), old(stagedOrders), Op(Execute(orderId), sec, now))
    {
      if orderId !in stagedOrders {
        assert stagedOrders - {orderId} == stagedOrders;
        return Ok(None);
      }
      var order := stagedOrders[orderId];
      stagedOrders := stagedOrders - {orderId};
      var valid := TokenValid(Settings(), order, sec, now);
      if valid.Err? {
        return Err(valid.error);
      }
      if valid.value {
        return Ok(Some(order.(status := OrderStatus.Approved)));
      }
      return Ok(None);
    }

    /** Rejection needs no token, so neither the secrets nor the clock matter. */
    method RejectStaged(orderId: string) returns (order: Option<Order>)
      modifies this
      ensures forall sec, now ::
                stagedOrders == StagedAfter(Settings(), old(stagedOrders), Op(Reject(orderId), sec, now))
      ensures order == if orderId in old(stagedOrders)
                       then Some(old(stagedOrders)[orderId].(status := OrderStatus.Rejected)) else None
    {
      if orderId !in stagedOrders {
        assert stagedOrders - {orderId} == stagedOrders;
        return None;
      }
      order := Some(stagedOrders[orderId].(status := OrderStatus.Rejected));
      stagedOrders := stagedOrders - {orderId};
    }
  }
}
