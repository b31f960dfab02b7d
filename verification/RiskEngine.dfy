/** The risk gate every order passes (`aiswarm/risk/limits.py` and the guards it calls). */
module RiskEngines {
  import opened Common
  import opened Orders
  import opened RiskToken
  import opened Memory

  /** A snapshot's NAV is validated as positive. */
  type PortfolioSnapshot = s: Snapshot | s.nav > 0.0 witness Snapshot(1.0, 0.0)

  datatype Limits = Limits(maxPositionWeight: real, maxGrossExposure: real, maxDailyLoss: real,
                           maxRollingDrawdown: real, maxLeverage: real, minLiquidityScore: real)

  datatype Conditions = Conditions(snapshot: Option<PortfolioSnapshot>, dailyPnl: real, rollingDrawdown: real,
                                   leverage: real, liquidity: real)

  datatype Budget = Budget(maxCapital: real, maxDailyLoss: real, maxDrawdown: real, maxPositionNotional: real)

  /** A risk budget's capital is validated as positive. */
  type RiskBudget = b: Budget | b.maxCapital > 0.0 witness Budget(1.0, 1.0, 1.0, 0.0)

  datatype Mandate = Mandate(mandateId: string, budget: RiskBudget)

  datatype Reason =
    | KillSwitchTriggered | PositionWeight | GrossExposure | DrawdownBreached | LeverageBreached
    | LiquidityInsufficient | MandateDailyLoss | MandateDrawdown | MandateCapital | MandatePositionNotional

  // ------------------------------------------------------------------
  // The guards
  // ------------------------------------------------------------------

  function Nav(cond: Conditions): (nav: real)
    ensures nav > 0.0
  {
    if cond.snapshot.Some? then cond.snapshot.value.nav else 1000000.0
  }

  function Weight(order: Order, cond: Conditions): real {
    order.notional / Nav(cond)
  }

  function Gross(cond: Conditions): real {
    if cond.snapshot.Some? then cond.snapshot.value.grossExposure else 0.0
  }

  /** Every global limit is respected. */
  predicate WithinLimits(lim: Limits, cond: Conditions, order: Order) {
    && cond.dailyPnl > -Abs(lim.maxDailyLoss)
    && Weight(order, cond) <= lim.maxPositionWeight
    && Gross(cond) + Weight(order, cond) <= lim.maxGrossExposure
    && cond.rollingDrawdown < lim.maxRollingDrawdown
    && cond.leverage <= lim.maxLeverage
    && cond.liquidity >= lim.minLiquidityScore
  }

  function EffectiveNotional(b: Budget): real {
    if b.maxPositionNotional > 0.0 then b.maxPositionNotional else b.maxCapital
  }

  /** Every limit of the mandate's own budget is respected. */
  predicate WithinBudget(b: RiskBudget, tracker: Tracker, order: Order) {
    && (tracker.dailyPnl < 0.0 ==> Abs(tracker.dailyPnl) / b.maxCapital < b.maxDailyLoss)
    && DrawdownOf(tracker) < b.maxDrawdown
    && tracker.grossExposure + order.notional <= b.maxCapital
    && order.notional <= EffectiveNotional(b)
  }

  /** Which limit a reason says is broken. A position that is too heavy is not checked for gross exposure. */
  predicate Breaks(lim: Limits, cond: Conditions, order: Order, reason: Reason) {
    match reason
    case KillSwitchTriggered => cond.dailyPnl <= -Abs(lim.maxDailyLoss)
    case PositionWeight => Weight(order, cond) > lim.maxPositionWeight
    case GrossExposure =>
      Weight(order, cond) <= lim.maxPositionWeight && Gross(cond) + Weight(order, cond) > lim.maxGrossExposure
    case DrawdownBreached => cond.rollingDrawdown >= lim.maxRollingDrawdown
    case LeverageBreached => cond.leverage > lim.maxLeverage
    case LiquidityInsufficient => cond.liquidity < lim.minLiquidityScore
    case _ => false
  }

  predicate BreaksBudget(b: RiskBudget, tracker: Tracker, order: Order, reason: Reason) {
    match reason
    case MandateDailyLoss => tracker.dailyPnl < 0.0 && Abs(tracker.dailyPnl) / b.maxCapital >= b.maxDailyLoss
    case MandateDrawdown => DrawdownOf(tracker) >= b.maxDrawdown
    case MandateCapital => tracker.grossExposure + order.notional > b.maxCapital
    case MandatePositionNotional => order.notional > EffectiveNotional(b)
    case _ => false
  }

  // ------------------------------------------------------------------
  // The guards without quotients
  // ------------------------------------------------------------------

  /** The global limits in money: shares are of the NAV, which is a million while there is no snapshot. */
  lemma LimitsMean(lim: Limits, cond: Conditions, order: Order)
    ensures var nav := match cond.snapshot case Some(s) => s.nav case None => 1000000.0;
            var gross := match cond.snapshot case Some(s) => s.grossExposure case None => 0.0;
            WithinLimits(lim, cond, order)
            <==> && (cond.dailyPnl > lim.maxDailyLoss || cond.dailyPnl > -lim.maxDailyLoss)
                 && order.notional <= lim.maxPositionWeight * nav
                 && gross * nav + order.notional <= lim.maxGrossExposure * nav
                 && cond.rollingDrawdown < lim.maxRollingDrawdown
                 && cond.leverage <= lim.maxLeverage
                 && cond.liquidity >= lim.minLiquidityScore
  {
    var nav, gross := Nav(cond), Gross(cond);
    ShareAtMost(order.notional, nav, lim.maxPositionWeight);
    ShareAtMost(order.notional, nav, lim.maxGrossExposure - gross);
    assert (lim.maxGrossExposure - gross) * nav == lim.maxGrossExposure * nav - gross * nav;
  }

  lemma ShareAtMost(part: real, whole: real, limit: real)
    requires whole > 0.0
    ensures part / whole <= limit <==> part <= limit * whole
    ensures part / whole < limit <==> part < limit * whole
  {
    var share := part / whole;
    assert share * whole == part;
    if share < limit {
      assert (limit - share) * whole > 0.0;
    } else if share > limit {
      assert (share - limit) * whole > 0.0;
    }
  }

  /** The mandate's budget in money: losses against its capital, drawdown against its own peak. */
  lemma BudgetMeans(b: RiskBudget, tracker: Tracker, order: Order)
    ensures WithinBudget(b, tracker, order)
            <==> && (tracker.dailyPnl < 0.0 ==> -tracker.dailyPnl < b.maxDailyLoss * b.maxCapital)
                 && (if tracker.peakNav > 0.0
                     then tracker.peakNav - tracker.currentNav < b.maxDrawdown * tracker.peakNav
                     else 0.0 < b.maxDrawdown)
                 && tracker.grossExposure + order.notional <= b.maxCapital
                 && (b.maxPositionNotional <= 0.0 ==> order.notional <= b.maxCapital)
                 && (b.maxPositionNotional > 0.0 ==> order.notional <= b.maxPositionNotional)
  {
    ShareAtMost(-tracker.dailyPnl, b.maxCapital, b.maxDailyLoss);
    if tracker.peakNav > 0.0 {
      ShareAtMost(tracker.peakNav - tracker.currentNav, tracker.peakNav, b.maxDrawdown);
    }
  }

  // ------------------------------------------------------------------
  // The engine
  // ------------------------------------------------------------------

  datatype RiskApproval = Approval(order: Order) | Rejection(reasons: seq<Reason>)

  function Signed(order: Order, token: string): Order {
    order.(riskToken := Some(token), status := OrderStatus.Approved)
  }

  class RiskEngine {
    const limits: Limits
    const mac: Mac
    var killSwitchTriggered: bool

    constructor (limits: Limits, mac: Mac)
      ensures this.limits == limits && this.mac == mac && !killSwitchTriggered
    {
      this.limits, this.mac, killSwitchTriggered := limits, mac, false;
    }

    /** The kill switch trips on the daily loss and remembers that it ever did. */
    method KillSwitch(dailyPnl: real) returns (tripped: bool)
      modifies this
      ensures tripped <==> dailyPnl <= -Abs(limits.maxDailyLoss)
      ensures killSwitchTriggered == (old(killSwitchTriggered) || tripped)
    {
      if dailyPnl <= -Abs(limits.maxDailyLoss) {
        if !killSwitchTriggered {
          killSwitchTriggered := true;
        }
        return true;
      }
      return false;
    }

    method CheckExposure(order: Order, cond: Conditions) returns (reason: Option<Reason>)
      ensures reason.None? <==> Weight(order, cond) <= limits.maxPositionWeight
                                && Gross(cond) + Weight(order, cond) <= limits.maxGrossExposure
      ensures reason.Some? ==> reason.value == if Weight(order, cond) > limits.maxPositionWeight
                                               then PositionWeight else GrossExposure
    {
      var weight := order.notional / Nav(cond);
      if weight > limits.maxPositionWeight {
        return Some(PositionWeight);
      }
      if Gross(cond) + weight > limits.maxGrossExposure {
        return Some(GrossExposure);
      }
      return None;
    }

    /**
     * `validate`: approval means every global guard passed, and carries a token for this order;
     * rejection means some guard did not.
     */
    method Validate(order: Order, cond: Conditions, sec: Secrets, now: real)
      returns (r: Result<RiskApproval, TokenError>)
      requires now >= 0.0
      modifies this
      ensures killSwitchTriggered == (old(killSwitchTriggered) || cond.dailyPnl <= -Abs(limits.maxDailyLoss))
      ensures r.Err? <==> WithinLimits(limits, cond, order) && sec.current == ""
      ensures r.Ok? && r.value.Approval? <==> WithinLimits(limits, cond, order) && sec.current != ""
      ensures r.Ok? && r.value.Approval? ==>
                r.value.order == Signed(order, SignRiskToken(sec, mac, order.orderId, now).value)
      ensures r.Ok? && r.value.Rejection? ==>
                forall reason :: reason in r.value.reasons <==> Breaks(limits, cond, order, reason)
    {
      var reasons: seq<Reason> := [];
      var tripped := KillSwitch(cond.dailyPnl);
      if tripped {
        reasons := reasons + [KillSwitchTriggered];
      }
      var exposure := CheckExposure(order, cond);
      if exposure.Some? {
        reasons := reasons + [exposure.value];
      }
      if cond.rollingDrawdown >= limits.maxRollingDrawdown {
        reasons := reasons + [DrawdownBreached];
      }
      if cond.leverage > limits.maxLeverage {
        reasons := reasons + [LeverageBreached];
      }
      if cond.liquidity < limits.minLiquidityScore {
        reasons := reasons + [LiquidityInsufficient];
      }
      assert forall reason :: reason in reasons <==> Breaks(limits, cond, order, reason);
      assert reasons == [] <==> WithinLimits(limits, cond, order);
      if reasons != [] {
        return Ok(Rejection(reasons));
      }
      var token := SignRiskToken(sec, mac, order.orderId, now);
      if token.Err? {
        return Err(token.error);
      }
      return Ok(Approval(Signed(order, token.value)));
    }

    /** `validate_with_mandate`: the global guards first, then the mandate's budget. */
    method ValidateWithMandate(order: Order, cond: Conditions, mandate: Mandate, tracker: Tracker,
                               sec: Secrets, now: real)
      returns (r: Result<RiskApproval, TokenError>)
      requires now >= 0.0
      modifies this
      ensures killSwitchTriggered == (old(killSwitchTriggered) || cond.dailyPnl <= -Abs(limits.maxDailyLoss))
      ensures r.Err? <==> WithinLimits(limits, cond, order) && sec.current == ""
      ensures r.Ok? && r.value.Approval? <==>
                && WithinLimits(limits, cond, order) && sec.current != ""
                && WithinBudget(mandate.budget, tracker, order)
      ensures r.Ok? && r.value.Approval? ==>
                r.value.order == Signed(order, SignRiskToken(sec, mac, order.orderId, now).value)
      ensures r.Ok? && r.value.Rejection? ==>
                forall reason :: reason in r.value.reasons <==>
                  if WithinLimits(limits, cond, order) then BreaksBudget(mandate.budget, tracker, order, reason)
                  else Breaks(limits, cond, order, reason)
    {
      var global := Validate(order, cond, sec, now);
      if global.Err? || global.value.Rejection? {
        return global;
      }
      var reasons: seq<Reason> := [];
      var budget := mandate.budget;
      if tracker.dailyPnl < 0.0 {
        var loss := Abs(tracker.dailyPnl) / budget.maxCapital;
        if loss >= budget.maxDailyLoss {
          reasons := reasons + [MandateDailyLoss];
        }
      }
      if DrawdownOf(tracker) >= budget.maxDrawdown {
        reasons := reasons + [MandateDrawdown];
      }
      if tracker.grossExposure + order.notional > budget.maxCapital {
        reasons := reasons + [MandateCapital];
      }
      if order.notional > EffectiveNotional(budget) {
        reasons := reasons + [MandatePositionNotional];
      }
      assert forall reason :: reason in reasons <==> BreaksBudget(budget, tracker, order, reason);
      assert reasons == [] <==> WithinBudget(budget, tracker, order);
      if reasons != [] {
        return Ok(Rejection(reasons));
      }
      return global;
    }
  }
}
