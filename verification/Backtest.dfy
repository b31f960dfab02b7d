/** The event-driven backtest loop (`aiswarm/backtest/engine.py`). */
module Backtest {
  import opened Common

  // ------------------------------------------------------------------
  // Data
  // ------------------------------------------------------------------

  datatype Candle = Candle(timestamp: int, open: real, high: real, low: real, close: real, volume: real)

  datatype Signal = Signal(direction: int, confidence: real)

  datatype Position = Position(long: bool, quantity: real, entryPrice: real)

  datatype Trade = Trade(timestamp: int, symbol: string, buy: bool, price: real, quantity: real,
                         notional: real, confidence: real, pnl: real)

  datatype Config = Config(initialCapital: real, positionSizePct: real, commissionBps: real, slippageBps: real)

  /** A deterministic signal generator: symbol, candles so far, open position. */
  type Generator = (string, seq<Candle>, Option<Position>) -> Option<Signal>

  datatype State = State(capital: real, position: Option<Position>, equity: seq<real>, trades: seq<Trade>)

  /** `ValueError` for too few candles, and Python's `ZeroDivisionError`. */
  datatype Error = TooFewCandles | ZeroDivision

  // ------------------------------------------------------------------
  // Pure helpers of the engine
  // ------------------------------------------------------------------

  function ApplySlippage(cfg: Config, price: real, direction: int): real {
    var slip := Times(price, cfg.slippageBps) / 10000.0;
    if direction >= 1 then price + slip else price - slip
  }

  function Commission(cfg: Config, capital: real): real {
    Times(Notional(cfg, capital), cfg.commissionBps) / 10000.0
  }

  function RealizedPnl(pos: Position, exitPrice: real): real {
    if pos.long then Times(exitPrice - pos.entryPrice, pos.quantity)
    else Times(pos.entryPrice - exitPrice, pos.quantity)
  }

  function MarkToMarket(capital: real, position: Option<Position>, price: real): real {
    if position.None? then capital
    else if position.value.long then capital + Times(price - position.value.entryPrice, position.value.quantity)
    else capital + Times(position.value.entryPrice - price, position.value.quantity)
  }

  function Notional(cfg: Config, capital: real): real {
    Times(capital, cfg.positionSizePct)
  }

  function Quantity(notional: real, price: real): real
    requires price != 0.0
  {
    notional / price
  }

  function OpenPosition(cfg: Config, symbol: string, signal: Signal, capital: real, execPrice: real, timestamp: int)
    : (Position, Trade)
    requires execPrice != 0.0
  {
    var notional := Notional(cfg, capital);
    var quantity := Quantity(notional, execPrice);
    (Position(signal.direction >= 1, quantity, execPrice),
     Trade(timestamp, symbol, signal.direction >= 1, execPrice, quantity, notional, signal.confidence, 0.0))
  }

  function CloseTrade(pos: Position, symbol: string, price: real, confidence: real, timestamp: int): Trade {
    Trade(timestamp, symbol, !pos.long, price, pos.quantity, Times(pos.quantity, price), confidence,
          RealizedPnl(pos, price))
  }

  predicate ShouldClose(pos: Position, signal: Signal) {
    (pos.long && signal.direction <= -1) || (!pos.long && signal.direction >= 1)
  }

  // ------------------------------------------------------------------
  // The bar loop
  // ------------------------------------------------------------------

  /** What a bar does to cash, position and trades, before the equity point is taken. */
  function React(cfg: Config, symbol: string, st: State, signal: Option<Signal>, bar: Candle): Result<State, Error> {
    if signal.None? then Ok(st)
    else
      var execPrice := ApplySlippage(cfg, bar.close, signal.value.direction);
      var commission := Commission(cfg, st.capital);
      if st.position.None? then
        if execPrice == 0.0 then Err(ZeroDivision)
        else
          var (pos, trade) := OpenPosition(cfg, symbol, signal.value, st.capital, execPrice, bar.timestamp);
          Ok(st.(capital := st.capital - commission, position := Some(pos), trades := st.trades + [trade]))
      else if ShouldClose(st.position.value, signal.value) then
        var trade := CloseTrade(st.position.value, symbol, execPrice, signal.value.confidence, bar.timestamp);
        Ok(st.(capital := st.capital + (trade.pnl - commission), position := None, trades := st.trades + [trade]))
      else Ok(st)
  }

  function Bar(cfg: Config, symbol: string, gen: Generator, candles: seq<Candle>, st: State, i: nat)
    : Result<State, Error>
    requires i < |candles|
  {
    match React(cfg, symbol, st, gen(symbol, candles[..i + 1], st.position), candles[i])
    case Err(e) => Err(e)
    case Ok(st') => Ok(st'.(equity := st'.equity + [MarkToMarket(st'.capital, st'.position, candles[i].close)]))
  }

  /** The state after the first `n` candles (the first candle only sets the starting equity). */
  function Bars(cfg: Config, symbol: string, gen: Generator, candles: seq<Candle>, n: nat): Result<State, Error>
    requires 1 <= n <= |candles|
  {
    if n == 1 then Ok(State(cfg.initialCapital, None, [cfg.initialCapital], []))
    else
      match Bars(cfg, symbol, gen, candles, n - 1)
      case Err(e) => Err(e)
      case Ok(st) => Bar(cfg, symbol, gen, candles, st, n - 1)
  }

  /** The forced close of an open position at the last bar: no slippage, no commission. */
  function ForceClose(symbol: string, st: State, last: Candle): State
    requires st.equity != []
  {
    if st.position.None? then st
    else
      var trade := CloseTrade(st.position.value, symbol, last.close, 0.0, last.timestamp);
      var capital := st.capital + trade.pnl;
      State(capital, None, st.equity[|st.equity| - 1 := capital], st.trades + [trade])
  }

  // ------------------------------------------------------------------
  // Trade statistics
  // ------------------------------------------------------------------

  function Wins(trades: seq<Trade>): seq<real> {
    if trades == [] then []
    else
      var before, last := Wins(trades[..|trades| - 1]), trades[|trades| - 1];
      if last.pnl > 0.0 then before + [last.pnl] else before
  }

  function Losses(trades: seq<Trade>): seq<real> {
    if trades == [] then []
    else
      var before, last := Losses(trades[..|trades| - 1]), trades[|trades| - 1];
      if last.pnl < 0.0 then before + [last.pnl] else before
  }

  function Average(total: real, count: nat): real {
    if count == 0 then 0.0 else total / count as real
  }

  function Percentage(count: nat, total: nat): real {
    if total == 0 then 0.0 else count as real / total as real * 100.0
  }

  function ProfitFactor(profit: real, loss: real): Option<real> {
    if loss > 0.0 then Some(profit / loss) else None
  }

  /** The result's figures; `profitFactor` is `None` for infinity. Risk metrics are left out. */
  datatype Stats = Stats(totalReturnPct: real, totalTrades: nat, winningTrades: nat, losingTrades: nat,
                         winRate: real, avgWin: real, avgLoss: real, profitFactor: Option<real>)

  datatype BacktestResult = BacktestResult(finalCapital: real, equity: seq<real>, trades: seq<Trade>, stats: Stats)

  function Statistics(cfg: Config, finalCapital: real, trades: seq<Trade>): Result<Stats, Error> {
    if cfg.initialCapital == 0.0 then Err(ZeroDivision)
    else
      var wins, losses := Wins(trades), Losses(trades);
      var grossProfit, grossLoss := Sum(wins), Abs(Sum(losses));
      var total := |wins| + |losses|;
      Ok(Stats(
        (finalCapital - cfg.initialCapital) / cfg.initialCapital * 100.0,
        total, |wins|, |losses|,
        Percentage(|wins|, total),
        Average(grossProfit, |wins|),
        Average(grossLoss, |losses|),
        ProfitFactor(grossProfit, grossLoss)))
  }

  lemma EquityPerBar(cfg: Config, symbol: string, gen: Generator, candles: seq<Candle>, n: nat)
    requires 1 <= n <= |candles|
    ensures Bars(cfg, symbol, gen, candles, n).Ok? ==> |Bars(cfg, symbol, gen, candles, n).value.equity| == n
  {
  }

  function RunResult(cfg: Config, symbol: string, gen: Generator, candles: seq<Candle>): Result<BacktestResult, Error> {
    if |candles| < 2 then Err(TooFewCandles)
    else
      match Bars(cfg, symbol, gen, candles, |candles|)
      case Err(e) => Err(e)
      case Ok(st) =>
        EquityPerBar(cfg, symbol, gen, candles, |candles|);
        var closed := ForceClose(symbol, st, candles[|candles| - 1]);
        match Statistics(cfg, closed.capital, closed.trades)
        case Err(e) => Err(e)
        case Ok(stats) => Ok(BacktestResult(closed.capital, closed.equity, closed.trades, stats))
  }

  // ------------------------------------------------------------------
  // The engine's loops
  // ------------------------------------------------------------------

  method ComputeStatistics(cfg: Config, finalCapital: real, trades: seq<Trade>) returns (r: Result<Stats, Error>)
    ensures r == Statistics(cfg, finalCapital, trades)
  {
    hide Percentage, ProfitFactor, Average;
    if cfg.initialCapital == 0.0 {
      return Err(ZeroDivision);
    }
    var totalReturn := (finalCapital - cfg.initialCapital) / cfg.initialCapital * 100.0;
    var wins, losses, grossProfit, lossSum := 0, 0, 0.0, 0.0;
    for i := 0 to |trades|
      invariant wins == |Wins(trades[..i])| && grossProfit == Sum(Wins(trades[..i]))
      invariant losses == |Losses(trades[..i])| && lossSum == Sum(Losses(trades[..i]))
    {
      assert trades[..i + 1][..i] == trades[..i];
      SumAppend(Wins(trades[..i]), trades[i].pnl);
      SumAppend(Losses(trades[..i]), trades[i].pnl);
      if trades[i].pnl > 0.0 {
        wins, grossProfit := wins + 1, grossProfit + trades[i].pnl;
      }
      if trades[i].pnl < 0.0 {
        losses, lossSum := losses + 1, lossSum + trades[i].pnl;
      }
    }
    assert trades[..|trades|] == trades;
    var total, grossLoss := wins + losses, Abs(lossSum);
    var winRate := Percentage(wins, total);
    var avgWin, avgLoss := Average(grossProfit, wins), Average(grossLoss, losses);
    var profitFactor := ProfitFactor(grossProfit, grossLoss);
    r := Ok(Stats(totalReturn, total, wins, losses, winRate, avgWin, avgLoss, profitFactor));
  }

  /** `BacktestEngine.run`. */
  method Run(cfg: Config, symbol: string, gen: Generator, candles: seq<Candle>)
    returns (r: Result<BacktestResult, Error>)
    ensures r == RunResult(cfg, symbol, gen, candles)
  {
    hide Statistics;
    if |candles| < 2 {
      return Err(TooFewCandles);
    }
    var capital := cfg.initialCapital;
    var equity, trades := [capital], [];
    var position: Option<Position> := None;
    for i := 1 to |candles|
      invariant Bars(cfg, symbol, gen, candles, i) == Ok(State(capital, position, equity, trades))
    {
      ghost var before := State(capital, position, equity, trades);
      var current := candles[i];
      var signal := gen(symbol, candles[..i + 1], position);
      if signal.Some? {
        var direction := signal.value.direction;
        var execPrice := ApplySlippage(cfg, current.close, direction);
        var commission := Commission(cfg, capital);
        if position.None? {
          if execPrice == 0.0 {
            BarsErr(cfg, symbol, gen, candles, i + 1);
            return Err(ZeroDivision);
          }
          var (opening, trade) := OpenPosition(cfg, symbol, signal.value, capital, execPrice, current.timestamp);
          position := Some(opening);
          capital := capital - commission;
          trades := trades + [trade];
        } else if (position.value.long && direction <= -1) || (!position.value.long && direction >= 1) {
          var trade := CloseTrade(position.value, symbol, execPrice, signal.value.confidence, current.timestamp);
          capital := capital + (trade.pnl - commission);
          trades := trades + [trade];
          position := None;
        }
      }
      equity := equity + [MarkToMarket(capital, position, current.close)];
      assert Bar(cfg, symbol, gen, candles, before, i) == Ok(State(capital, position, equity, trades));
    }
    EquityPerBar(cfg, symbol, gen, candles, |candles|);
    if position.Some? {
      var last := candles[|candles| - 1];
      var trade := CloseTrade(position.value, symbol, last.close, 0.0, last.timestamp);
      capital := capital + trade.pnl;
      trades := trades + [trade];
      equity := equity[|equity| - 1 := capital];
    }
    var stats := ComputeStatistics(cfg, capital, trades);
    r := match stats
      case Err(e) => Err(e)
      case Ok(s) => Ok(BacktestResult(capital, equity, trades, s));
  }

  /** An error at some bar is the error of the whole loop. */
  lemma {:induction false} BarsErr(cfg: Config, symbol: string, gen: Generator, candles: seq<Candle>, n: nat)
    requires 1 <= n <= |candles| && Bars(cfg, symbol, gen, candles, n).Err?
    ensures Bars(cfg, symbol, gen, candles, |candles|) == Bars(cfg, symbol, gen, candles, n)
    decreases |candles| - n
  {
    if n < |candles| {
      BarsErr(cfg, symbol, gen, candles, n + 1);
    }
  }
}
