/** What every backtest run satisfies: no look-ahead, exact accounting, and the solvency bound. */
module BacktestTheorems {
  import opened Common
  import opened Backtest

  // ------------------------------------------------------------------
  // No look-ahead
  // ------------------------------------------------------------------

  /** Two histories that agree up to candle `n` give the same state after `n` candles. */
  lemma {:induction false} Causality(cfg: Config, symbol: string, gen: Generator, a: seq<Candle>, b: seq<Candle>,
                                     n: nat)
    requires 1 <= n <= |a| && n <= |b| && a[..n] == b[..n]
    ensures Bars(cfg, symbol, gen, a, n) == Bars(cfg, symbol, gen, b, n)
  {
    if n > 1 {
      assert a[..n - 1] == a[..n][..n - 1] == b[..n][..n - 1] == b[..n - 1];
      Causality(cfg, symbol, gen, a, b, n - 1);
      assert a[n - 1] == a[..n][n - 1] == b[..n][n - 1] == b[n - 1];
    }
  }

  /** Later bars only append: the equity curve and the trades of an earlier point are prefixes. */
  lemma {:induction false} BarsExtend(cfg: Config, symbol: string, gen: Generator, candles: seq<Candle>, m: nat, n: nat)
    requires 1 <= m <= n <= |candles|
    requires Bars(cfg, symbol, gen, candles, n).Ok?
    ensures Bars(cfg, symbol, gen, candles, m).Ok?
    ensures var early, late := Bars(cfg, symbol, gen, candles, m).value, Bars(cfg, symbol, gen, candles, n).value;
            && |early.equity| == m && |late.equity| == n
            && early.equity == late.equity[..m] && early.trades <= late.trades
  {
    EquityPerBar(cfg, symbol, gen, candles, m);
    EquityPerBar(cfg, symbol, gen, candles, n);
    if m < n {
      BarsExtend(cfg, symbol, gen, candles, m, n - 1);
      var before := Bars(cfg, symbol, gen, candles, n - 1).value;
      var after := Bars(cfg, symbol, gen, candles, n).value;
      assert before.equity == after.equity[..n - 1];
      assert after.equity[..m] == after.equity[..n - 1][..m];
    }
  }

  /** The forced close adds at most one trade and leaves the last equity point as it was marked. */
  lemma ForcedCloseIsNeutral(cfg: Config, symbol: string, gen: Generator, candles: seq<Candle>, n: nat)
    requires 2 <= n <= |candles| && Bars(cfg, symbol, gen, candles, n).Ok?
    ensures var st := Bars(cfg, symbol, gen, candles, n).value;
            && |st.equity| == n
            && var closed := ForceClose(symbol, st, candles[n - 1]);
               && closed.equity == st.equity
               && closed.capital == st.equity[n - 1]
               && st.trades <= closed.trades && |closed.trades| == |st.trades| + (if st.position.Some? then 1 else 0)
  {
  }

  /** A run succeeds exactly when its bars do and there is capital to measure the return against. */
  lemma RunShape(cfg: Config, symbol: string, gen: Generator, candles: seq<Candle>)
    requires |candles| >= 2
    ensures var bars := Bars(cfg, symbol, gen, candles, |candles|);
            && (RunResult(cfg, symbol, gen, candles).Ok? <==> bars.Ok? && cfg.initialCapital != 0.0)
            && (RunResult(cfg, symbol, gen, candles).Ok? ==>
                  var r, last := RunResult(cfg, symbol, gen, candles).value, candles[|candles| - 1];
                  && r.equity == bars.value.equity && |r.equity| == |candles|
                  && var closed := ForceClose(symbol, bars.value, last);
                     && r.finalCapital == closed.capital == r.equity[|candles| - 1]
                     && r.trades == closed.trades
                     && Statistics(cfg, r.finalCapital, r.trades) == Ok(r.stats))
  {
    if Bars(cfg, symbol, gen, candles, |candles|).Ok? {
      ForcedCloseIsNeutral(cfg, symbol, gen, candles, |candles|);
    }
  }

  /**
   * No look-ahead: cutting the candles short changes nothing that came before the cut. The equity
   * curve of the short run is a prefix of the long run's, and its trades are the long run's trades
   * up to that bar, followed by at most one forced close at the cut.
   */
  lemma NoLookAhead(cfg: Config, symbol: string, gen: Generator, candles: seq<Candle>, m: nat)
    requires 2 <= m <= |candles|
    requires RunResult(cfg, symbol, gen, candles).Ok?
    ensures RunResult(cfg, symbol, gen, candles[..m]).Ok? && Bars(cfg, symbol, gen, candles, m).Ok?
    ensures var full := RunResult(cfg, symbol, gen, candles).value;
            var cut := RunResult(cfg, symbol, gen, candles[..m]).value;
            var seen := Bars(cfg, symbol, gen, candles, m).value.trades;
            && |full.equity| == |candles|
            && cut.equity == full.equity[..m]
            && cut.finalCapital == full.equity[m - 1]
            && seen <= full.trades
            && (cut.trades == seen
                || exists forced ::
                     cut.trades == seen + [forced]
                     && forced.timestamp == candles[m - 1].timestamp && forced.price == candles[m - 1].close
                     && forced.symbol == symbol && forced.confidence == 0.0)
  {
    hide RunResult, Statistics, Bars;
    assert candles[..m][..m] == candles[..m];
    RunShape(cfg, symbol, gen, candles);
    RunShape(cfg, symbol, gen, candles[..m]);
    Causality(cfg, symbol, gen, candles[..m], candles, m);
    BarsExtend(cfg, symbol, gen, candles, m, |candles|);
    assert candles[..m][m - 1] == candles[m - 1];
  }

  // ------------------------------------------------------------------
  // Accounting
  // ------------------------------------------------------------------

  function TotalPnl(trades: seq<Trade>): real {
    if trades == [] then 0.0 else TotalPnl(trades[..|trades| - 1]) + trades[|trades| - 1].pnl
  }

  /** The commission charged at the `n`-th candle: one per trade made there, on the cash held then. */
  function Fee(cfg: Config, symbol: string, gen: Generator, candles: seq<Candle>, n: nat): real
    requires 2 <= n <= |candles| && Bars(cfg, symbol, gen, candles, n).Ok?
  {
    var before := Bars(cfg, symbol, gen, candles, n - 1).value;
    var after := Bars(cfg, symbol, gen, candles, n).value;
    if |after.trades| > |before.trades| then Commission(cfg, before.capital) else 0.0
  }

  function Fees(cfg: Config, symbol: string, gen: Generator, candles: seq<Candle>, n: nat): real
    requires 1 <= n <= |candles| && Bars(cfg, symbol, gen, candles, n).Ok?
  {
    if n == 1 then 0.0 else Fees(cfg, symbol, gen, candles, n - 1) + Fee(cfg, symbol, gen, candles, n)
  }

  /** An opening trade realises nothing. */
  predicate Opens(t: Trade) {
    t.pnl == 0.0 && t.notional == Times(t.quantity, t.price)
  }

  /** A close takes the other side for the same quantity; its P&L is the price move since the open. */
  predicate Closes(opening: Trade, t: Trade) {
    && t.buy == !opening.buy
    && t.quantity == opening.quantity
    && t.notional == Times(t.quantity, t.price)
    && t.pnl == Times(if opening.buy then t.price - opening.price else opening.price - t.price, opening.quantity)
  }

  /** The trade log alternates between opens and the closes that belong to them. */
  ghost predicate Alternates(trades: seq<Trade>) {
    && (forall i | 0 <= i < |trades| && i % 2 == 0 :: Opens(trades[i]))
    && (forall i | 0 <= i < |trades| && i % 2 == 1 :: Closes(trades[i - 1], trades[i]))
  }

  /** The open position, if any, is the last trade of the log. */
  ghost predicate PositionMatches(st: State) {
    && (st.position.Some? <==> |st.trades| % 2 == 1)
    && (st.position.Some? ==>
          var t := st.trades[|st.trades| - 1];
          st.position.value == Position(t.buy, t.quantity, t.price))
  }

  lemma CloseStep(symbol: string, st: State, price: real, confidence: real, timestamp: int)
    requires Alternates(st.trades) && PositionMatches(st) && st.position.Some?
    ensures var t := CloseTrade(st.position.value, symbol, price, confidence, timestamp);
            && Alternates(st.trades + [t]) && |st.trades + [t]| % 2 == 0
            && TotalPnl(st.trades + [t]) == TotalPnl(st.trades) + t.pnl
  {
  }

  lemma OpenStep(cfg: Config, symbol: string, st: State, signal: Signal, execPrice: real, timestamp: int)
    requires Alternates(st.trades) && PositionMatches(st) && st.position.None? && execPrice != 0.0
    ensures var (pos, t) := OpenPosition(cfg, symbol, signal, st.capital, execPrice, timestamp);
            && Alternates(st.trades + [t]) && |st.trades + [t]| % 2 == 1
            && pos == Position(t.buy, t.quantity, t.price)
            && TotalPnl(st.trades + [t]) == TotalPnl(st.trades)
  {
  }

  /** Each bar keeps the ledger, and moves cash by the P&L of its trade less one commission. */
  lemma ReactKeepsLedger(cfg: Config, symbol: string, st: State, signal: Option<Signal>, bar: Candle)
    requires Alternates(st.trades) && PositionMatches(st)
    requires React(cfg, symbol, st, signal, bar).Ok?
    ensures var st' := React(cfg, symbol, st, signal, bar).value;
            && Alternates(st'.trades) && PositionMatches(st')
            && (|st'.trades| == |st.trades| ==> st' == st)
            && (|st'.trades| != |st.trades| ==>
                  && |st'.trades| == |st.trades| + 1
                  && st'.capital - TotalPnl(st'.trades)
                     == st.capital - TotalPnl(st.trades) - Commission(cfg, st.capital))
  {
    if signal.Some? {
      var execPrice := ApplySlippage(cfg, bar.close, signal.value.direction);
      if st.position.None? {
        OpenStep(cfg, symbol, st, signal.value, execPrice, bar.timestamp);
      } else if ShouldClose(st.position.value, signal.value) {
        CloseStep(symbol, st, execPrice, signal.value.confidence, bar.timestamp);
      }
    }
  }

  lemma {:induction false} Ledger(cfg: Config, symbol: string, gen: Generator, candles: seq<Candle>, n: nat)
    requires 1 <= n <= |candles| && Bars(cfg, symbol, gen, candles, n).Ok?
    ensures var st := Bars(cfg, symbol, gen, candles, n).value;
            && Alternates(st.trades) && PositionMatches(st)
            && st.capital - TotalPnl(st.trades) == cfg.initialCapital - Fees(cfg, symbol, gen, candles, n)
  {
    hide React, Commission;
    if n > 1 {
      Ledger(cfg, symbol, gen, candles, n - 1);
      var st := Bars(cfg, symbol, gen, candles, n - 1).value;
      ReactKeepsLedger(cfg, symbol, st, gen(symbol, candles[..n], st.position), candles[n - 1]);
    }
  }

  lemma {:induction false} WinsLessLosses(trades: seq<Trade>)
    ensures Sum(Wins(trades)) + Sum(Losses(trades)) == TotalPnl(trades)
    ensures Sum(Losses(trades)) <= 0.0 <= Sum(Wins(trades))
    ensures |Wins(trades)| + |Losses(trades)| <= |trades|
  {
    if trades != [] {
      var before, last := trades[..|trades| - 1], trades[|trades| - 1];
      WinsLessLosses(before);
      SumAppend(Wins(before), last.pnl);
      SumAppend(Losses(before), last.pnl);
    }
  }

  /** A count of trades times their average. */
  function Gross(count: nat, average: real): real {
    count as real * average
  }

  /** The averages of the result, scaled back by their counts, are the gross profit and loss. */
  lemma Averages(cfg: Config, finalCapital: real, trades: seq<Trade>)
    requires Statistics(cfg, finalCapital, trades).Ok?
    ensures var s := Statistics(cfg, finalCapital, trades).value;
            && Gross(s.winningTrades, s.avgWin) == Sum(Wins(trades))
            && Gross(s.losingTrades, s.avgLoss) == -Sum(Losses(trades))
            && s.winningTrades + s.losingTrades == s.totalTrades <= |trades|
  {
    WinsLessLosses(trades);
    ScaleBack(Sum(Wins(trades)), |Wins(trades)|);
    var grossLoss := Abs(Sum(Losses(trades)));
    ScaleBack(grossLoss, |Losses(trades)|);
    assert grossLoss == -Sum(Losses(trades));
  }

  lemma ScaleBack(total: real, count: nat)
    requires count == 0 ==> total == 0.0
    ensures Gross(count, Average(total, count)) == total
  {
  }

  lemma ForceCloseKeepsLedger(symbol: string, st: State, last: Candle)
    requires Alternates(st.trades) && PositionMatches(st) && st.equity != []
    ensures var closed := ForceClose(symbol, st, last);
            && Alternates(closed.trades) && |closed.trades| % 2 == 0
            && closed.capital - TotalPnl(closed.trades) == st.capital - TotalPnl(st.trades)
  {
  }

  /**
   * Exact accounting of a whole run: cash is the starting capital plus all trade P&L minus the
   * commissions; every position is closed; and wins less losses is the total P&L.
   */
  lemma Accounting(cfg: Config, symbol: string, gen: Generator, candles: seq<Candle>)
    requires RunResult(cfg, symbol, gen, candles).Ok?
    ensures var r := RunResult(cfg, symbol, gen, candles).value;
            && r.finalCapital == cfg.initialCapital + TotalPnl(r.trades) - Fees(cfg, symbol, gen, candles, |candles|)
            && Alternates(r.trades) && |r.trades| % 2 == 0
  {
    RunShape(cfg, symbol, gen, candles);
    Ledger(cfg, symbol, gen, candles, |candles|);
    ForceCloseKeepsLedger(symbol, Bars(cfg, symbol, gen, candles, |candles|).value, candles[|candles| - 1]);
  }

  /** The reported statistics agree with the trade log and the final capital. */
  lemma StatisticsAgree(cfg: Config, symbol: string, gen: Generator, candles: seq<Candle>)
    requires RunResult(cfg, symbol, gen, candles).Ok?
    ensures var r := RunResult(cfg, symbol, gen, candles).value;
            && Gross(r.stats.winningTrades, r.stats.avgWin) - Gross(r.stats.losingTrades, r.stats.avgLoss)
               == TotalPnl(r.trades)
            && r.stats.totalReturnPct == (r.finalCapital - cfg.initialCapital) / cfg.initialCapital * 100.0
  {
    var r := RunResult(cfg, symbol, gen, candles).value;
    RunShape(cfg, symbol, gen, candles);
    Averages(cfg, r.finalCapital, r.trades);
    WinsLessLosses(r.trades);
  }

  /** The trades of a log that won. */
  ghost function Winning(trades: seq<Trade>): set<int> {
    set i | 0 <= i < |trades| && trades[i].pnl > 0.0
  }

  ghost function Losing(trades: seq<Trade>): set<int> {
    set i | 0 <= i < |trades| && trades[i].pnl < 0.0
  }

  lemma {:induction false} WinsCount(trades: seq<Trade>)
    ensures |Wins(trades)| == |Winning(trades)|
  {
    if trades != [] {
      var n := |trades| - 1;
      WinsCount(trades[..n]);
      assert Winning(trades) == Winning(trades[..n]) + (if trades[n].pnl > 0.0 then {n} else {});
    }
  }

  lemma {:induction false} LossesCount(trades: seq<Trade>)
    ensures |Losses(trades)| == |Losing(trades)|
  {
    if trades != [] {
      var n := |trades| - 1;
      LossesCount(trades[..n]);
      assert Losing(trades) == Losing(trades[..n]) + (if trades[n].pnl < 0.0 then {n} else {});
    }
  }

  lemma PercentageMeans(count: nat, total: nat)
    requires count <= total
    ensures total == 0 ==> Percentage(count, total) == 0.0
    ensures Gross(total, Percentage(count, total)) == 100.0 * count as real
  {
  }

  lemma ProfitFactorMeans(profit: real, loss: real)
    ensures ProfitFactor(profit, loss).Some? <==> loss > 0.0
    ensures loss > 0.0 ==> Times(ProfitFactor(profit, loss).value, loss) == profit
  {
  }

  /** The shares of the result: the percentage of deciding trades that won, and gross profit per gross loss. */
  lemma SharesAgree(cfg: Config, finalCapital: real, trades: seq<Trade>)
    requires Statistics(cfg, finalCapital, trades).Ok?
    ensures var s := Statistics(cfg, finalCapital, trades).value;
            && s.winningTrades == |Winning(trades)| && s.losingTrades == |Losing(trades)|
            && s.totalTrades == s.winningTrades + s.losingTrades
            && (s.totalTrades == 0 ==> s.winRate == 0.0)
            && Gross(s.totalTrades, s.winRate) == 100.0 * s.winningTrades as real
            && (s.profitFactor.None? <==> Sum(Losses(trades)) == 0.0)
            && (s.profitFactor.Some? ==> Times(s.profitFactor.value, -Sum(Losses(trades))) == Sum(Wins(trades)))
  {
    hide Percentage, ProfitFactor, Average, Gross, Times, Winning, Losing;
    WinsCount(trades);
    LossesCount(trades);
    WinsLessLosses(trades);
    PercentageMeans(|Wins(trades)|, |Wins(trades)| + |Losses(trades)|);
    ProfitFactorMeans(Sum(Wins(trades)), Abs(Sum(Losses(trades))));
  }

  // ------------------------------------------------------------------
  // Solvency of long-only strategies
  // ------------------------------------------------------------------

  /** The commission as a rate on the position's notional. */
  function Rate(cfg: Config): real {
    cfg.commissionBps / 10000.0
  }

  /** The fraction of cash left after one commission. */
  function Kept(cfg: Config): real {
    1.0 - Times(cfg.positionSizePct, Rate(cfg))
  }

  /** The slippage as a fraction of the price. */
  function Slip(cfg: Config): real {
    cfg.slippageBps / 10000.0
  }

  predicate Sane(cfg: Config) {
    cfg.initialCapital > 0.0 && cfg.positionSizePct >= 0.0 && cfg.commissionBps >= 0.0
    && 0.0 <= cfg.slippageBps < 10000.0
  }

  predicate PositivePrices(candles: seq<Candle>) {
    forall i | 0 <= i < |candles| :: candles[i].close > 0.0
  }

  ghost predicate LongOnly(gen: Generator) {
    forall symbol, history :: gen(symbol, history, None).Some? ==> gen(symbol, history, None).value.direction >= 1
  }

  /** Cash and every equity point are strictly positive after `n` candles, with no division by zero. */
  predicate SolventAt(cfg: Config, symbol: string, gen: Generator, candles: seq<Candle>, n: nat)
    requires 1 <= n <= |candles|
  {
    match Bars(cfg, symbol, gen, candles, n)
    case Err(_) => false
    case Ok(st) => st.capital > 0.0 && forall i | 0 <= i < |st.equity| :: st.equity[i] > 0.0
  }

  /** Solvent from the first candle to the last, and after the forced close. */
  ghost predicate SolventRun(cfg: Config, symbol: string, gen: Generator, candles: seq<Candle>) {
    && (forall n | 1 <= n <= |candles| :: SolventAt(cfg, symbol, gen, candles, n))
    && (|candles| >= 2 ==>
          RunResult(cfg, symbol, gen, candles).Ok? && RunResult(cfg, symbol, gen, candles).value.finalCapital > 0.0)
  }

  /** Position sizes small enough that two commissions and a total loss of the position are affordable. */
  predicate Affordable(cfg: Config) {
    Kept(cfg) >= 0.0 && cfg.positionSizePct <= Times(Kept(cfg), Kept(cfg))
  }

  /** Cash, and an open long position bought with the fraction p of the cash held before its commission. */
  ghost predicate Covered(cfg: Config, st: State) {
    && st.capital > 0.0
    && (st.position.Some? ==>
          var pos := st.position.value;
          && pos.long && pos.entryPrice > 0.0 && pos.quantity >= 0.0
          && Times(Times(pos.quantity, pos.entryPrice), Kept(cfg)) == Times(cfg.positionSizePct, st.capital))
  }

  lemma KeptPositive(cfg: Config)
    requires Sane(cfg) && Affordable(cfg)
    ensures 0.0 < Kept(cfg) <= 1.0
  {
    TimesSigns(cfg.positionSizePct, Rate(cfg));
    TimesSigns(Kept(cfg), Kept(cfg));
  }

  lemma CommissionIsRate(cfg: Config, capital: real)
    ensures capital - Commission(cfg, capital) == Times(Kept(cfg), capital)
  {
    RateArithmetic(capital, cfg.positionSizePct, cfg.commissionBps, Rate(cfg));
  }

  lemma RateArithmetic(c: real, p: real, bps: real, rate: real)
    requires bps == 10000.0 * rate
    ensures c - Times(Times(c, p), bps) / 10000.0 == Times(1.0 - Times(p, rate), c)
  {
    assert c * p * bps == 10000.0 * (c * p * rate);
  }

  /** Buyers pay more and sellers receive less, by the same fraction of the price. */
  lemma SlippedPrice(cfg: Config, price: real, direction: int)
    requires Sane(cfg) && price > 0.0
    ensures ApplySlippage(cfg, price, direction)
         == if direction >= 1 then price + Times(price, Slip(cfg)) else price - Times(price, Slip(cfg))
    ensures 0.0 <= Times(price, Slip(cfg)) < price && ApplySlippage(cfg, price, direction) > 0.0
  {
    SlipArithmetic(price, cfg.slippageBps, Slip(cfg));
  }

  lemma SlipArithmetic(price: real, bps: real, slip: real)
    requires bps == 10000.0 * slip && 0.0 <= slip < 1.0 && price > 0.0
    ensures Times(price, bps) / 10000.0 == Times(price, slip)
    ensures 0.0 <= Times(price, slip) < price
  {
    assert price * bps == 10000.0 * (price * slip);
    assert price * (1.0 - slip) > 0.0;
  }

  /** Sold at any positive price, a position within its cost bound leaves cash even after the commission. */
  lemma SaleArithmetic(capital: real, kept: real, p: real, quantity: real, entry: real, price: real)
    requires capital > 0.0 && 0.0 < kept <= 1.0 && quantity >= 0.0 && price > 0.0
    requires Times(Times(quantity, entry), kept) == Times(p, capital) && p <= Times(kept, kept)
    ensures Times(kept, capital) + Times(price - entry, quantity) > 0.0
    ensures capital + Times(price - entry, quantity) > 0.0
  {
    var cost := Times(quantity, entry);
    CostArithmetic(capital, kept, p, cost);
    assert Times(price - entry, quantity) == price * quantity - cost;
    if quantity == 0.0 {
      assert Times(price - entry, quantity) == 0.0;
      TimesSigns(kept, capital);
    } else {
      assert price * quantity > 0.0;
    }
  }

  lemma CostArithmetic(capital: real, kept: real, p: real, cost: real)
    requires capital > 0.0 && 0.0 < kept <= 1.0
    requires Times(cost, kept) == Times(p, capital) && p <= Times(kept, kept)
    ensures cost <= Times(kept, capital) <= capital
  {
    assert p * capital <= kept * kept * capital;
    CancelFactor(cost, kept * capital, kept);
    assert (1.0 - kept) * capital >= 0.0;
  }

  lemma CancelFactor(a: real, b: real, k: real)
    requires k > 0.0 && a * k <= b * k
    ensures a <= b
  {
    assert (a - b) * k <= 0.0;
  }

  /** Whatever positive price a covered position is sold or marked at, cash stays above zero. */
  lemma CoveredStaysPositive(cfg: Config, st: State, price: real)
    requires Sane(cfg) && Affordable(cfg) && Covered(cfg, st) && price > 0.0
    ensures MarkToMarket(st.capital, st.position, price) > 0.0
    ensures st.position.Some? ==>
              st.capital + (RealizedPnl(st.position.value, price) - Commission(cfg, st.capital)) > 0.0
  {
    KeptPositive(cfg);
    CommissionIsRate(cfg, st.capital);
    if st.position.Some? {
      var pos := st.position.value;
      SaleArithmetic(st.capital, Kept(cfg), cfg.positionSizePct, pos.quantity, pos.entryPrice, price);
    }
  }

  lemma OpenIsCovered(cfg: Config, symbol: string, st: State, signal: Signal, price: real, timestamp: int)
    requires Sane(cfg) && Affordable(cfg) && st.capital > 0.0 && price > 0.0 && signal.direction >= 1
    ensures var pos := OpenPosition(cfg, symbol, signal, st.capital, price, timestamp).0;
            Covered(cfg, st.(capital := st.capital - Commission(cfg, st.capital), position := Some(pos)))
  {
    KeptPositive(cfg);
    CommissionIsRate(cfg, st.capital);
    OpenArithmetic(st.capital, cfg.positionSizePct, Kept(cfg), price);
  }

  lemma OpenArithmetic(capital: real, p: real, kept: real, price: real)
    requires capital > 0.0 && p >= 0.0 && kept > 0.0 && price > 0.0
    ensures Times(kept, capital) > 0.0
    ensures Quantity(Times(capital, p), price) >= 0.0
    ensures Times(Times(Quantity(Times(capital, p), price), price), kept) == Times(p, Times(kept, capital))
  {
    TimesSigns(kept, capital);
    TimesSigns(capital, p);
    QuantityCost(Times(capital, p), price);
    assert capital * p * kept == p * (kept * capital);
  }

  lemma QuantityCost(notional: real, price: real)
    requires price > 0.0 && notional >= 0.0
    ensures Times(Quantity(notional, price), price) == notional && Quantity(notional, price) >= 0.0
  {
  }

  lemma ReactStaysCovered(cfg: Config, symbol: string, st: State, signal: Option<Signal>, bar: Candle)
    requires Sane(cfg) && Affordable(cfg) && Covered(cfg, st) && bar.close > 0.0
    requires st.position.None? && signal.Some? ==> signal.value.direction >= 1
    ensures React(cfg, symbol, st, signal, bar).Ok? && Covered(cfg, React(cfg, symbol, st, signal, bar).value)
  {
    if signal.Some? {
      var execPrice := ApplySlippage(cfg, bar.close, signal.value.direction);
      SlippedPrice(cfg, bar.close, signal.value.direction);
      if st.position.None? {
        OpenIsCovered(cfg, symbol, st, signal.value, execPrice, bar.timestamp);
      } else {
        CoveredStaysPositive(cfg, st, execPrice);
      }
    }
  }

  lemma BarStaysCovered(cfg: Config, symbol: string, st: State, signal: Option<Signal>, bar: Candle)
    requires Sane(cfg) && Affordable(cfg) && Covered(cfg, st) && bar.close > 0.0
    requires st.position.None? && signal.Some? ==> signal.value.direction >= 1
    ensures var after := React(cfg, symbol, st, signal, bar);
            && after.Ok? && Covered(cfg, after.value) && after.value.equity == st.equity
            && MarkToMarket(after.value.capital, after.value.position, bar.close) > 0.0
  {
    ReactStaysCovered(cfg, symbol, st, signal, bar);
    CoveredStaysPositive(cfg, React(cfg, symbol, st, signal, bar).value, bar.close);
  }

  lemma {:induction false} BarsStayCovered(cfg: Config, symbol: string, gen: Generator, candles: seq<Candle>, n: nat)
    requires Sane(cfg) && Affordable(cfg) && PositivePrices(candles) && LongOnly(gen) && 1 <= n <= |candles|
    ensures SolventAt(cfg, symbol, gen, candles, n)
    ensures Covered(cfg, Bars(cfg, symbol, gen, candles, n).value)
  {
    if n > 1 {
      BarsStayCovered(cfg, symbol, gen, candles, n - 1);
      var st := Bars(cfg, symbol, gen, candles, n - 1).value;
      var signal := gen(symbol, candles[..n], st.position);
      var bar := candles[n - 1];
      BarStaysCovered(cfg, symbol, st, signal, bar);
      var st' := Bars(cfg, symbol, gen, candles, n);
      assert st' == Bar(cfg, symbol, gen, candles, st, n - 1);
    }
  }

  /** Long-only strategies with affordable sizes never run out of cash, on any price path. */
  lemma LongOnlySolvent(cfg: Config, symbol: string, gen: Generator, candles: seq<Candle>)
    requires Sane(cfg) && Affordable(cfg) && PositivePrices(candles) && LongOnly(gen)
    ensures SolventRun(cfg, symbol, gen, candles)
  {
    forall n | 1 <= n <= |candles|
      ensures SolventAt(cfg, symbol, gen, candles, n)
    {
      BarsStayCovered(cfg, symbol, gen, candles, n);
    }
    if |candles| >= 2 {
      var n := |candles|;
      BarsStayCovered(cfg, symbol, gen, candles, n);
      ForcedCloseIsNeutral(cfg, symbol, gen, candles, n);
    }
  }

  // The bound is tight: a strategy that buys, then sells into a crash.

  const BUY_THEN_SELL: Generator :=
    (symbol: string, history: seq<Candle>, position: Option<Position>) =>
        Some(if position.None? then Signal(1, 1.0) else Signal(-1, 1.0))

  function Flat(price: real): Candle {
    Candle(0, price, price, price, price, 0.0)
  }

  /** After the first bar the strategy holds a long position bought with the fraction p of its cash. */
  lemma CrashOpening(cfg: Config, symbol: string, candles: seq<Candle>)
    requires Sane(cfg) && |candles| >= 2 && candles[1] == Flat(1.0)
    ensures var c, entry := cfg.initialCapital, 1.0 + Slip(cfg);
            var bars := Bars(cfg, symbol, BUY_THEN_SELL, candles, 2);
            && bars.Ok? && bars.value.capital == Times(Kept(cfg), c)
            && bars.value.position == Some(Position(true, Quantity(Notional(cfg, c), entry), entry))
  {
  }

  lemma CrashCash(cfg: Config, symbol: string, drop: real)
    requires Sane(cfg) && drop > 0.0
    ensures var bars := Bars(cfg, symbol, BUY_THEN_SELL, [Flat(1.0), Flat(1.0), Flat(drop)], 3);
            var c, entry, exit := cfg.initialCapital, 1.0 + Slip(cfg), drop - Times(drop, Slip(cfg));
            && bars.Ok?
            && bars.value.capital == Times(Kept(cfg), Times(Kept(cfg), c))
                                     + Times(exit - entry, Quantity(Notional(cfg, c), entry))
  {
    var candles := [Flat(1.0), Flat(1.0), Flat(drop)];
    CrashOpening(cfg, symbol, candles);
    var st := Bars(cfg, symbol, BUY_THEN_SELL, candles, 2).value;
    SlippedPrice(cfg, drop, -1);
    CommissionIsRate(cfg, st.capital);
    assert Bars(cfg, symbol, BUY_THEN_SELL, candles, 3) == Bar(cfg, symbol, BUY_THEN_SELL, candles, st, 2);
  }

  lemma CrashBankrupts(cfg: Config, symbol: string)
    requires Sane(cfg) && Kept(cfg) >= 0.0 && !Affordable(cfg)
    ensures exists candles ::
              |candles| == 3 && PositivePrices(candles) && !SolventAt(cfg, symbol, BUY_THEN_SELL, candles, 3)
  {
    var drop := BankruptingDrop(cfg.initialCapital, cfg.positionSizePct, Kept(cfg), Slip(cfg));
    CrashCash(cfg, symbol, drop);
    var candles := [Flat(1.0), Flat(1.0), Flat(drop)];
    assert PositivePrices(candles);
    assert !SolventAt(cfg, symbol, BUY_THEN_SELL, candles, 3);
  }

  lemma BankruptingDrop(c: real, p: real, kept: real, slip: real) returns (drop: real)
    requires 0.0 <= slip < 1.0 && c > 0.0 && p > Times(kept, kept)
    ensures drop > 0.0
    ensures var entry, exit := 1.0 + slip, drop - Times(drop, slip);
            Times(kept, Times(kept, c)) + Times(exit - entry, Quantity(Times(c, p), entry)) <= 0.0
  {
    assert kept * kept >= 0.0;
    drop := (p - kept * kept) / p;
    assert drop * p == p - kept * kept;
    assert drop > 0.0;
    var entry := 1.0 + slip;
    var q := Quantity(Times(c, p), entry);
    TimesSigns(c, p);
    QuantityCost(Times(c, p), entry);
    CrashArithmetic(c, p, kept, slip, drop, q);
  }

  lemma CrashArithmetic(c: real, p: real, a: real, s: real, drop: real, q: real)
    requires 0.0 <= s < 1.0 && drop > 0.0 && q >= 0.0
    requires drop * p == p - a * a && Times(q, 1.0 + s) == Times(c, p)
    ensures Times(a, Times(a, c)) + Times((drop - Times(drop, s)) - (1.0 + s), q) <= 0.0
  {
    var dq := drop * q;
    assert dq >= 0.0;
    assert dq * s >= 0.0;
    assert dq + dq * s == drop * (q * (1.0 + s)) == drop * (c * p) == c * (drop * p) == c * p - a * (a * c);
    assert ((drop - drop * s) - (1.0 + s)) * q == dq - dq * s - q * (1.0 + s);
  }

  /**
   * The exact solvency condition. With non-negative rates and slippage below 100%, every long-only
   * strategy survives every positive price path if and only if p*k <= 1 and p <= (1 - p*k)^2.
   */
  lemma SolventIffAffordable(cfg: Config, symbol: string)
    requires Sane(cfg)
    ensures (forall gen: Generator, candles ::
               LongOnly(gen) && PositivePrices(candles) ==> SolventRun(cfg, symbol, gen, candles))
            <==> Affordable(cfg)
  {
    if Affordable(cfg) {
      forall gen: Generator, candles | LongOnly(gen) && PositivePrices(candles)
        ensures SolventRun(cfg, symbol, gen, candles)
      {
        LongOnlySolvent(cfg, symbol, gen, candles);
      }
    } else {
      assert LongOnly(BUY_THEN_SELL);
      if Kept(cfg) >= 0.0 {
        CrashBankrupts(cfg, symbol);
        var candles :| |candles| == 3 && PositivePrices(candles) && !SolventAt(cfg, symbol, BUY_THEN_SELL, candles, 3);
        assert !SolventRun(cfg, symbol, BUY_THEN_SELL, candles);
      } else {
        var candles := [Flat(1.0), Flat(1.0)];
        assert PositivePrices(candles);
        OverchargedOpen(cfg, symbol);
        assert !SolventRun(cfg, symbol, BUY_THEN_SELL, candles);
      }
    }
  }

  lemma OverchargedOpen(cfg: Config, symbol: string)
    requires Sane(cfg) && Kept(cfg) < 0.0
    ensures !SolventAt(cfg, symbol, BUY_THEN_SELL, [Flat(1.0), Flat(1.0)], 2)
  {
    CrashOpening(cfg, symbol, [Flat(1.0), Flat(1.0)]);
    assert Times(Kept(cfg), cfg.initialCapital) < 0.0;
  }

  /** Slippage is always adverse: entering and leaving at one close costs twice the slip, either way. */
  lemma RoundTripCost(cfg: Config, symbol: string, signal: Signal, capital: real, close: real, timestamp: int)
    requires Sane(cfg) && close > 0.0
    ensures var entry := ApplySlippage(cfg, close, signal.direction);
            && entry > 0.0
            && var pos := OpenPosition(cfg, symbol, signal, capital, entry, timestamp).0;
               var exit := ApplySlippage(cfg, close, if pos.long then -1 else 1);
               RealizedPnl(pos, exit) == Times(-2.0 * Times(close, Slip(cfg)), pos.quantity)
  {
    SlippedPrice(cfg, close, signal.direction);
    SlippedPrice(cfg, close, -signal.direction);
    SlippedPrice(cfg, close, 1);
    SlippedPrice(cfg, close, -1);
  }

  // ------------------------------------------------------------------
  // What one bar does
  // ------------------------------------------------------------------

  /** Cash and the open position's gain at a price. */
  function Marked(st: State, price: real): real {
    if st.position.None? then st.capital
    else
      var pos := st.position.value;
      st.capital + (if pos.long then price - pos.entryPrice else pos.entryPrice - price) * pos.quantity
  }

  /** A signal trades from flat, and against the open position. */
  predicate Trades(position: Option<Position>, signal: Option<Signal>) {
    signal.Some? &&
    (position.None? || (if position.value.long then signal.value.direction < 0 else signal.value.direction > 0))
  }

  /** The close, moved against the trader by the slippage. */
  ghost predicate ExecutedAt(cfg: Config, t: Trade, bar: Candle) {
    t.price == bar.close + (if t.buy then 1.0 else -1.0) * bar.close * cfg.slippageBps / 10000.0
  }

  /** The bar's trade: when, why, on which side and at what price. */
  ghost predicate TradeOfBar(cfg: Config, symbol: string, position: Option<Position>, signal: Signal, bar: Candle,
                             t: Trade) {
    && t.timestamp == bar.timestamp && t.symbol == symbol && t.confidence == signal.confidence
    && (t.buy <==> if position.None? then signal.direction >= 1 else !position.value.long)
    && ExecutedAt(cfg, t, bar)
  }

  /** Cash after a commission of the position's fraction of it. */
  ghost predicate Charged(cfg: Config, cash: real, cash': real, pnl: real) {
    cash' == cash + pnl - cash * cfg.positionSizePct * cfg.commissionBps / 10000.0
  }

  lemma ReactTrades(cfg: Config, symbol: string, st: State, signal: Option<Signal>, bar: Candle, st': State)
    requires React(cfg, symbol, st, signal, bar) == Ok(st')
    ensures !Trades(st.position, signal) ==> st' == st
    ensures Trades(st.position, signal) ==>
              && |st'.trades| == |st.trades| + 1 && st'.trades[..|st.trades|] == st.trades
              && var t := st'.trades[|st.trades|];
                 && TradeOfBar(cfg, symbol, st.position, signal.value, bar, t)
                 && Charged(cfg, st.capital, st'.capital, t.pnl)
                 && (st.position.None? ==>
                       t.notional == st.capital * cfg.positionSizePct
                       && st'.position == Some(Position(t.buy, t.quantity, t.price)))
                 && (st.position.Some? ==> st'.position.None?)
  {
    assert cfg.positionSizePct * st.capital == st.capital * cfg.positionSizePct;
  }

  /**
   * Every bar, spelled out. It trades exactly on a signal from flat or against the position, where the
   * signal saw the candles up to and including this bar; it executes at this bar's close, moved
   * against the trader by the slippage; an opening spends the configured fraction of the cash, a
   * closing leaves the run flat; and the equity point marks the position at the close.
   */
  lemma BarByBar(cfg: Config, symbol: string, gen: Generator, candles: seq<Candle>, n: nat)
    requires 2 <= n <= |candles| && Bars(cfg, symbol, gen, candles, n).Ok?
    ensures Bars(cfg, symbol, gen, candles, n - 1).Ok?
    ensures var st, st' := Bars(cfg, symbol, gen, candles, n - 1).value, Bars(cfg, symbol, gen, candles, n).value;
            var bar, signal := candles[n - 1], gen(symbol, candles[..n], st.position);
            && (if Trades(st.position, signal) then
                  && |st'.trades| == |st.trades| + 1 && st'.trades[..|st.trades|] == st.trades
                  && var t := st'.trades[|st.trades|];
                     && TradeOfBar(cfg, symbol, st.position, signal.value, bar, t)
                     && Charged(cfg, st.capital, st'.capital, t.pnl)
                     && (st.position.None? ==>
                           t.notional == st.capital * cfg.positionSizePct
                           && st'.position == Some(Position(t.buy, t.quantity, t.price)))
                     && (st.position.Some? ==> st'.position.None?)
                else st'.trades == st.trades && st'.position == st.position && st'.capital == st.capital)
            && st'.equity == st.equity + [Marked(st', bar.close)]
  {
    hide React, TradeOfBar, Charged, Trades, Marked, MarkToMarket;
    var st := Bars(cfg, symbol, gen, candles, n - 1).value;
    var signal := gen(symbol, candles[..n], st.position);
    var after := React(cfg, symbol, st, signal, candles[n - 1]).value;
    ReactTrades(cfg, symbol, st, signal, candles[n - 1], after);
    ReactKeepsEquity(cfg, symbol, st, signal, candles[n - 1], after);
    MarkedAtClose(after, candles[n - 1].close);
    MarkedIgnoresEquity(after, Bars(cfg, symbol, gen, candles, n).value, candles[n - 1].close);
  }

  lemma ReactKeepsEquity(cfg: Config, symbol: string, st: State, signal: Option<Signal>, bar: Candle, st': State)
    requires React(cfg, symbol, st, signal, bar) == Ok(st')
    ensures st'.equity == st.equity
  {
  }

  lemma MarkedAtClose(st: State, price: real)
    ensures MarkToMarket(st.capital, st.position, price) == Marked(st, price)
  {
  }

  lemma MarkedIgnoresEquity(st: State, st': State, price: real)
    requires st'.capital == st.capital && st'.position == st.position
    ensures Marked(st', price) == Marked(st, price)
  {
  }

  /** A bar fails only by opening at a price of zero. */
  lemma BarFailsIff(cfg: Config, symbol: string, gen: Generator, candles: seq<Candle>, n: nat)
    requires 2 <= n <= |candles| && Bars(cfg, symbol, gen, candles, n - 1).Ok?
    ensures var st := Bars(cfg, symbol, gen, candles, n - 1).value;
            var signal, close := gen(symbol, candles[..n], st.position), candles[n - 1].close;
            Bars(cfg, symbol, gen, candles, n).Err?
            <==> && st.position.None? && signal.Some?
                 && (if signal.value.direction >= 1 then close * (10000.0 + cfg.slippageBps) == 0.0
                     else close * (10000.0 - cfg.slippageBps) == 0.0)
  {
    var st := Bars(cfg, symbol, gen, candles, n - 1).value;
    var signal, close := gen(symbol, candles[..n], st.position), candles[n - 1].close;
    if signal.Some? {
      var price := ApplySlippage(cfg, close, signal.value.direction);
      assert 10000.0 * price == if signal.value.direction >= 1 then close * (10000.0 + cfg.slippageBps)
                                else close * (10000.0 - cfg.slippageBps);
    }
  }

  /** Before the second candle there is the initial cash and nothing else. */
  lemma FirstBar(cfg: Config, symbol: string, gen: Generator, candles: seq<Candle>)
    requires candles != []
    ensures Bars(cfg, symbol, gen, candles, 1)
         == Ok(State(cfg.initialCapital, None, [cfg.initialCapital], []))
  {
  }

  // ------------------------------------------------------------------
  // Directions
  // ------------------------------------------------------------------

  /**
   * What a direction does. From flat every signal opens, long from 1 on and short otherwise, so a
   * neutral 0 opens a short. An open position closes only on a signal that points the other way; a
   * neutral one leaves it alone.
   */
  lemma DirectionDecides(cfg: Config, symbol: string, st: State, signal: Signal, bar: Candle)
    requires React(cfg, symbol, st, Some(signal), bar).Ok?
    ensures var after := React(cfg, symbol, st, Some(signal), bar).value.position;
            && (st.position.None? ==> after.Some? && (!after.value.long <==> signal.direction <= 0))
            && (st.position.Some? ==>
                  && (after.None? <==>
                        (st.position.value.long && signal.direction < 0)
                        || (!st.position.value.long && signal.direction > 0))
                  && (after.Some? ==> React(cfg, symbol, st, Some(signal), bar) == Ok(st)))
  {
  }

  /** A generator that only ever says neutral opens one short at its first bar and holds it. */
  lemma {:induction false} NeutralRunsShort(cfg: Config, symbol: string, gen: Generator, candles: seq<Candle>, n: nat)
    requires 2 <= n <= |candles| && Bars(cfg, symbol, gen, candles, n).Ok?
    requires forall history, position :: gen(symbol, history, position).Some?
                                         && gen(symbol, history, position).value.direction == 0
    ensures var st := Bars(cfg, symbol, gen, candles, n).value;
            && st.position.Some? && !st.position.value.long
            && |st.trades| == 1 && !st.trades[0].buy && st.trades[0].timestamp == candles[1].timestamp
  {
    var before := Bars(cfg, symbol, gen, candles, n - 1).value;
    var signal := gen(symbol, candles[..n], before.position);
    assert signal.Some? && signal.value.direction == 0;
    if n > 2 {
      NeutralRunsShort(cfg, symbol, gen, candles, n - 1);
    }
  }
}
