/**
 * The trailing-stop backtest loop (src/backtest.py:46-131). Each 5-minute
 * tick first manages the open position (track the highest price, exit when
 * the stop is hit, arm the trail at break-even once price has risen by the
 * activation percentage, ratchet the stop up behind the highest price),
 * then considers an entry when flat, then records the portfolio value.
 *
 * The strategy's verdict, the initial stop-loss price and the 100-candle
 * warm-up test come with each tick as inputs.
 */
module TrailingStopBacktest {
  import opened Wrappers

  const InitialCash: real := 10000.0
  const TransactionFeePercent: real := 0.001
  const SlippagePercent: real := 0.0005

  datatype Config = Config(usdtPerTrade: real, activationPct: real, callbackPct: real)

  /** The configuration the backtest builds its risk manager with. */
  const BacktestConfig: Config := Config(200.0, 0.02, 0.01)

  datatype Position = Position(
    size: real,
    entryPrice: real,
    entryTime: int,
    entryValue: real,
    currentStopPrice: real,
    trailingStopActivated: bool,
    highestPriceSeen: real)

  datatype ExitReason = StopLossHit | TrailingStopHit

  datatype Trade = Trade(entryTime: int, exitTime: int, entryPrice: real, exitPrice: real, pnl: real, reason: ExitReason)

  /**
   * One candle: its close and time, whether the 1-hour history is long
   * enough, whether the strategy says BUY, and the stop-loss price the risk
   * manager would give an entry on it.
   */
  datatype Tick = Tick(time: int, price: real, warmedUp: bool, buySignal: bool, stopLossPrice: real)

  datatype EquityPoint = EquityPoint(time: int, equity: real)

  /** The loop's state: cash, the open position if any, closed trades, the equity curve. */
  datatype Sim = Sim(cash: real, position: Option<Position>, trades: seq<Trade>, equityCurve: seq<EquityPoint>)

  const Start: Sim := Sim(InitialCash, None, [], [])

  // ---- position management -------------------------------------------

  function TrackHigh(p: Position, price: real): (q: Position)
    ensures q == p.(highestPriceSeen := q.highestPriceSeen)
    ensures q.highestPriceSeen >= p.highestPriceSeen && q.highestPriceSeen >= price
    ensures q.highestPriceSeen == p.highestPriceSeen || q.highestPriceSeen == price
  {
    if price > p.highestPriceSeen then p.(highestPriceSeen := price) else p
  }

  /** The fill assumed when the stop is hit: the stop price less slippage. */
  function StopExitPrice(p: Position): real
  {
    p.currentStopPrice * (1.0 - SlippagePercent)
  }

  /** Cash credited on a stop exit: the exit value less the fee on it. */
  function ExitProceeds(p: Position): (r: real)
    ensures r == p.size * StopExitPrice(p) * (1.0 - TransactionFeePercent)
  {
    var tradeValue := p.size * StopExitPrice(p);
    tradeValue - tradeValue * TransactionFeePercent
  }

  /** Move the stop to break-even once price reaches entry * (1 + activation). */
  function Arm(cfg: Config, p: Position, price: real): Position
  {
    if !p.trailingStopActivated && price >= p.entryPrice * (1.0 + cfg.activationPct) then
      p.(trailingStopActivated := true, currentStopPrice := p.entryPrice)
    else p
  }

  /** Once armed, raise the stop to highest * (1 - callback) when that is higher. */
  function Ratchet(cfg: Config, p: Position): Position
  {
    if p.trailingStopActivated && p.highestPriceSeen * (1.0 - cfg.callbackPct) > p.currentStopPrice then
      p.(currentStopPrice := p.highestPriceSeen * (1.0 - cfg.callbackPct))
    else p
  }

  datatype Managed = Exited(cashIn: real, trade: Trade) | Held(p: Position)

  /** The management half of a tick for an open position. */
  function Manage(cfg: Config, p: Position, tick: Tick): Managed
  {
    var q := TrackHigh(p, tick.price);
    if tick.price <= q.currentStopPrice then
      var proceeds := ExitProceeds(q);
      Exited(proceeds, Trade(q.entryTime, tick.time, q.entryPrice, StopExitPrice(q), proceeds - q.entryValue,
                             if q.trailingStopActivated then TrailingStopHit else StopLossHit))
    else
      Held(Ratchet(cfg, Arm(cfg, q, tick.price)))
  }

  /** The stop sits above entry once armed and at or below entry before. */
  predicate StopOrdered(p: Position)
  {
    if p.trailingStopActivated then p.currentStopPrice >= p.entryPrice else p.currentStopPrice <= p.entryPrice
  }

  /**
   * A stop exit happens exactly when price is at or below the stop; it
   * credits size * stop * (1 - slippage) * (1 - fee), books that less the
   * entry value as pnl, and names the trailing stop exactly when it was armed.
   */
  lemma ManageExit(cfg: Config, p: Position, tick: Tick)
    ensures Manage(cfg, p, tick).Exited? <==> tick.price <= p.currentStopPrice
    ensures Manage(cfg, p, tick).Exited? ==>
              var m := Manage(cfg, p, tick);
              && m.cashIn == p.size * (p.currentStopPrice * (1.0 - SlippagePercent)) * (1.0 - TransactionFeePercent)
              && m.trade.exitPrice == p.currentStopPrice * (1.0 - SlippagePercent)
              && m.trade.pnl == m.cashIn - p.entryValue
              && m.trade.entryPrice == p.entryPrice && m.trade.exitTime == tick.time
              && (m.trade.reason == TrailingStopHit <==> p.trailingStopActivated)
  {
  }

  /**
   * A held position: the highest price is max(old, price); the trail is
   * armed iff it was armed or price reached the activation price, and never
   * un-arms; when the stop was ordered, it stays ordered and never drops;
   * once armed, the stop is at least highest * (1 - callback).
   */
  lemma ManageHeld(cfg: Config, p: Position, tick: Tick)
    requires Manage(cfg, p, tick).Held?
    ensures var q := Manage(cfg, p, tick).p;
            && q.highestPriceSeen == (if tick.price > p.highestPriceSeen then tick.price else p.highestPriceSeen)
            && (q.trailingStopActivated <==> p.trailingStopActivated || tick.price >= p.entryPrice * (1.0 + cfg.activationPct))
            && (StopOrdered(p) ==> StopOrdered(q) && q.currentStopPrice >= p.currentStopPrice)
            && (q.trailingStopActivated ==> q.currentStopPrice >= q.highestPriceSeen * (1.0 - cfg.callbackPct))
            && q.size == p.size && q.entryPrice == p.entryPrice && q.entryValue == p.entryValue && q.entryTime == p.entryTime
  {
  }

  // ---- entries -------------------------------------------------------

  /** The position a BUY opens on this tick: entry price with slippage, `usdtPerTrade` worth. */
  function Opened(cfg: Config, tick: Tick): Position
    requires tick.price > 0.0
  {
    var entryPrice := tick.price * (1.0 + SlippagePercent);
    var tradeSize := cfg.usdtPerTrade / entryPrice;
    Position(tradeSize, entryPrice, tick.time, tradeSize * entryPrice, tick.stopLossPrice, false, entryPrice)
  }

  /** Cash an entry costs: the trade value plus the fee on it. */
  function EntryCost(p: Position): real
  {
    p.entryValue + p.entryValue * TransactionFeePercent
  }

  /** The opened position is worth exactly `usdtPerTrade`, costs that plus the fee, and starts un-armed at its entry price. */
  lemma OpenedBookkeeping(cfg: Config, tick: Tick)
    requires tick.price > 0.0
    ensures var p := Opened(cfg, tick);
            && p.entryPrice == tick.price * (1.0 + SlippagePercent)
            && p.size * p.entryPrice == cfg.usdtPerTrade
            && p.entryValue == cfg.usdtPerTrade
            && EntryCost(p) == cfg.usdtPerTrade * (1.0 + TransactionFeePercent)
            && p.highestPriceSeen == p.entryPrice && !p.trailingStopActivated
            && p.currentStopPrice == tick.stopLossPrice
            && (tick.stopLossPrice <= p.entryPrice ==> StopOrdered(p))
  {
    var p := Opened(cfg, tick);
    assert p.size * p.entryPrice == cfg.usdtPerTrade;
  }

  // ---- one tick and the whole run ------------------------------------

  function PortfolioValue(cash: real, position: Option<Position>, price: real): real
  {
    cash + (if position.Some? then position.value.size * price else 0.0)
  }

  /** The state after managing the open position, before any entry. */
  function AfterManage(cfg: Config, s: Sim, tick: Tick): (r: Sim)
    ensures r.equityCurve == s.equityCurve
  {
    match s.position
    case None => s
    case Some(p) =>
      match Manage(cfg, p, tick)
      case Exited(cashIn, trade) => Sim(s.cash + cashIn, None, s.trades + [trade], s.equityCurve)
      case Held(q) => s.(position := Some(q))
  }

  /** A BUY is refused for lack of cash: the tick ends without an equity point. */
  predicate Refused(cfg: Config, m: Sim, tick: Tick)
    requires tick.price > 0.0
  {
    m.position.None? && tick.buySignal && m.cash < EntryCost(Opened(cfg, tick))
  }

  /** One pass of the loop body. */
  function Step(cfg: Config, s: Sim, tick: Tick): (r: Sim)
    requires tick.price > 0.0
    ensures |r.equityCurve| == |s.equityCurve| +
              (if tick.warmedUp && !Refused(cfg, AfterManage(cfg, s, tick), tick) then 1 else 0)
  {
    if !tick.warmedUp then s
    else
      var m := AfterManage(cfg, s, tick);
      if m.position.None? && tick.buySignal then
        var p := Opened(cfg, tick);
        if m.cash < EntryCost(p) then m
        else
          var cash := m.cash - EntryCost(p);
          Sim(cash, Some(p), m.trades, m.equityCurve + [EquityPoint(tick.time, PortfolioValue(cash, Some(p), tick.price))])
      else
        m.(equityCurve := m.equityCurve + [EquityPoint(tick.time, PortfolioValue(m.cash, m.position, tick.price))])
  }

  predicate PositivePrices(ticks: seq<Tick>)
  {
    forall i :: 0 <= i < |ticks| ==> ticks[i].price > 0.0
  }

  function Run(cfg: Config, s: Sim, ticks: seq<Tick>): Sim
    requires PositivePrices(ticks)
    decreases |ticks|
  {
    if ticks == [] then s
    else Step(cfg, Run(cfg, s, ticks[..|ticks| - 1]), ticks[|ticks| - 1])
  }

  /**
   * Position management for one tick, updating the position record field
   * by field as the source does.
   */
  method ManageOpenPosition(cfg: Config, position: Position, tick: Tick) returns (m: Managed)
    ensures m == Manage(cfg, position, tick)
  {
    var p := position;
    var currentPrice := tick.price;
    if currentPrice > p.highestPriceSeen {
      p := p.(highestPriceSeen := currentPrice);
    }
    if currentPrice <= p.currentStopPrice {
      var exitPrice := p.currentStopPrice * (1.0 - SlippagePercent);
      var reason := if !p.trailingStopActivated then StopLossHit else TrailingStopHit;
      var tradeValue := p.size * exitPrice;
      var fee := tradeValue * TransactionFeePercent;
      var pnl := (tradeValue - fee) - p.entryValue;
      return Exited(tradeValue - fee, Trade(p.entryTime, tick.time, p.entryPrice, exitPrice, pnl, reason));
    }
    if !p.trailingStopActivated {
      var activationPrice := p.entryPrice * (1.0 + cfg.activationPct);
      if currentPrice >= activationPrice {
        p := p.(trailingStopActivated := true, currentStopPrice := p.entryPrice);
      }
    }
    if p.trailingStopActivated {
      var newPotentialStop := p.highestPriceSeen * (1.0 - cfg.callbackPct);
      if newPotentialStop > p.currentStopPrice {
        p := p.(currentStopPrice := newPotentialStop);
      }
    }
    return Held(p);
  }

  /**
   * The backtest loop: the result is the fold of `Step` over the ticks.
   */
  method RunBacktest(cfg: Config, ticks: seq<Tick>)
    returns (cash: real, position: Option<Position>, trades: seq<Trade>, equityCurve: seq<EquityPoint>)
    requires PositivePrices(ticks)
    ensures Sim(cash, position, trades, equityCurve) == Run(cfg, Start, ticks)
  {
    cash, position, trades, equityCurve := InitialCash, None, [], [];
    for i := 0 to |ticks|
      invariant Sim(cash, position, trades, equityCurve) == Run(cfg, Start, ticks[..i])
    {
      assert ticks[..i + 1][..i] == ticks[..i];
      var tick := ticks[i];
      ghost var before := Sim(cash, position, trades, equityCurve);
      assert Run(cfg, Start, ticks[..i + 1]) == Step(cfg, before, tick);
      if !tick.warmedUp {
        continue;
      }
      var currentPrice := tick.price;

      if position.Some? {
        var m := ManageOpenPosition(cfg, position.value, tick);
        match m {
          case Exited(cashIn, trade) =>
            cash := cash + cashIn;
            trades := trades + [trade];
            position := None;
          case Held(p) =>
            position := Some(p);
        }
      }
      ghost var managed := Sim(cash, position, trades, equityCurve);
      assert managed == AfterManage(cfg, before, tick);

      if position.None? && tick.buySignal {
        var newPosition := Opened(cfg, tick);
        var cost := EntryCost(newPosition);
        if cash < cost {
          continue;
        }
        cash := cash - cost;
        position := Some(newPosition);
      }

      var portfolioValue := cash + (if position.Some? then position.value.size * currentPrice else 0.0);
      equityCurve := equityCurve + [EquityPoint(tick.time, portfolioValue)];
      assert portfolioValue == PortfolioValue(cash, position, tick.price);
      assert Sim(cash, position, trades, equityCurve) == Step(cfg, before, tick);
    }
    assert ticks[..|ticks|] == ticks;
  }

  // ---- the risk manager construction as written ----------------------

  /** The parameters of the bot risk manager's constructor (src/bot/risk_manager.py:5-11). */
  const RiskManagerParameters: seq<string> := ["symbols", "usdt_per_trade", "stop_loss_pct", "take_profit_pct", "max_open_trades"]

  /** The keyword arguments the backtest passes to it (src/backtest.py:30-37), in call order. */
  const BacktestKeywords: seq<string> :=
    ["symbols", "usdt_per_trade", "max_open_trades", "atr_multiplier",
     "trailing_stop_activation_pct", "trailing_stop_callback_pct"]

  /** Python's keyword binding: the first keyword, in call order, that names no parameter. */
  function UnexpectedKeyword(parameters: seq<string>, keywords: seq<string>): (r: Option<string>)
    ensures r.Some? ==> r.value in keywords && r.value !in parameters
    ensures r.None? ==> forall k :: 0 <= k < |keywords| ==> keywords[k] in parameters
    ensures r.Some? ==> exists i :: 0 <= i < |keywords| && keywords[i] == r.value &&
                          forall j :: 0 <= j < i ==> keywords[j] in parameters
    decreases |keywords|
  {
    if keywords == [] then None
    else if keywords[0] !in parameters then Some(keywords[0])
    else UnexpectedKeyword(parameters, keywords[1..])
  }

  datatype Outcome = TypeErrorOn(keyword: string) | Finished(s: Sim)

  /**
   * `run_backtest` as written: the risk manager is built before the loop,
   * and an unexpected keyword raises TypeError there, so no tick is ever
   * simulated. Only when every keyword binds would the loop run.
   */
  function RunAsWritten(ticks: seq<Tick>): Outcome
    requires PositivePrices(ticks)
  {
    match UnexpectedKeyword(RiskManagerParameters, BacktestKeywords)
    case Some(k) => TypeErrorOn(k)
    case None => Finished(Run(BacktestConfig, Start, ticks))
  }

  /**
   * Whatever the data, the script as written stops on `atr_multiplier`
   * before the first tick; the corrected loop (`RunBacktest` with
   * `BacktestConfig`) records a point for every warmed-up tick instead.
   */
  lemma AsWrittenRaisesBeforeLoop(ticks: seq<Tick>)
    requires PositivePrices(ticks)
    ensures RunAsWritten(ticks) == TypeErrorOn("atr_multiplier")
  {
    assert BacktestKeywords[0] in RiskManagerParameters;
    assert BacktestKeywords[1] in RiskManagerParameters;
    assert BacktestKeywords[2] in RiskManagerParameters;
    assert BacktestKeywords[1..] == ["usdt_per_trade", "max_open_trades", "atr_multiplier",
                                     "trailing_stop_activation_pct", "trailing_stop_callback_pct"];
    assert BacktestKeywords[1..][1..] == ["max_open_trades", "atr_multiplier",
                                          "trailing_stop_activation_pct", "trailing_stop_callback_pct"];
    assert BacktestKeywords[1..][1..][1..] == ["atr_multiplier", "trailing_stop_activation_pct", "trailing_stop_callback_pct"];
    assert "atr_multiplier" !in RiskManagerParameters;
  }

  // ---- properties of whole runs --------------------------------------

  /** Every tick's initial stop is at or below the entry price it would get. */
  predicate StopsBelowEntry(ticks: seq<Tick>)
  {
    forall i :: 0 <= i < |ticks| ==> ticks[i].stopLossPrice <= ticks[i].price * (1.0 + SlippagePercent)
  }

  /**
   * With initial stops at or below entry, every open position of the run
   * keeps its stop ordered: below entry until armed, at or above after; so
   * its stop never decreases while it stays open (`ManageHeld`).
   */
  lemma {:induction false} RunKeepsStopOrdered(cfg: Config, s: Sim, ticks: seq<Tick>)
    requires PositivePrices(ticks) && StopsBelowEntry(ticks)
    requires s.position.Some? ==> StopOrdered(s.position.value)
    ensures Run(cfg, s, ticks).position.Some? ==> StopOrdered(Run(cfg, s, ticks).position.value)
    decreases |ticks|
  {
    if ticks != [] {
      var n := |ticks| - 1;
      var prefix := ticks[..n];
      assert PositivePrices(prefix) && StopsBelowEntry(prefix) by {
        assert forall i :: 0 <= i < n ==> prefix[i] == ticks[i];
      }
      RunKeepsStopOrdered(cfg, s, prefix);
      var before := Run(cfg, s, prefix);
      var tick := ticks[n];
      if before.position.Some? {
        var m := Manage(cfg, before.position.value, tick);
        if m.Held? {
          ManageHeld(cfg, before.position.value, tick);
        }
      }
      OpenedBookkeeping(cfg, tick);
    }
  }

  /** The sum of what each tick adds to the equity curve. */
  function Recorded(cfg: Config, s: Sim, ticks: seq<Tick>): nat
    requires PositivePrices(ticks)
    decreases |ticks|
  {
    if ticks == [] then 0
    else
      var n := |ticks| - 1;
      Recorded(cfg, s, ticks[..n]) +
      (if ticks[n].warmedUp && !Refused(cfg, AfterManage(cfg, Run(cfg, s, ticks[..n]), ticks[n]), ticks[n]) then 1 else 0)
  }

  /**
   * One equity point per warmed-up tick, except a tick whose BUY is refused
   * for lack of cash: that tick's `continue` skips its point too. Without
   * BUY signals every warmed-up tick is recorded.
   */
  lemma {:induction false} EquityPointPerTick(cfg: Config, s: Sim, ticks: seq<Tick>)
    requires PositivePrices(ticks)
    ensures |Run(cfg, s, ticks).equityCurve| == |s.equityCurve| + Recorded(cfg, s, ticks)
    ensures Recorded(cfg, s, ticks) <= WarmedUp(ticks)
    ensures (forall i :: 0 <= i < |ticks| ==> !ticks[i].buySignal) ==> Recorded(cfg, s, ticks) == WarmedUp(ticks)
    decreases |ticks|
  {
    if ticks != [] {
      var n := |ticks| - 1;
      var prefix := ticks[..n];
      assert PositivePrices(prefix) by {
        assert forall i :: 0 <= i < n ==> prefix[i] == ticks[i];
      }
      assert forall i :: 0 <= i < n ==> prefix[i] == ticks[i];
      EquityPointPerTick(cfg, s, prefix);
    }
  }

  function WarmedUp(ticks: seq<Tick>): nat
    decreases |ticks|
  {
    if ticks == [] then 0 else WarmedUp(ticks[..|ticks| - 1]) + (if ticks[|ticks| - 1].warmedUp then 1 else 0)
  }

  predicate NonNegative(p: Position)
  {
    p.size >= 0.0 && p.entryPrice >= 0.0 && p.currentStopPrice >= 0.0
  }

  /** One tick keeps cash and the open position non-negative. */
  lemma StepCashNonNegative(cfg: Config, s: Sim, tick: Tick)
    requires tick.price > 0.0 && tick.stopLossPrice >= 0.0 && cfg.usdtPerTrade >= 0.0
    requires s.cash >= 0.0
    requires s.position.Some? ==> NonNegative(s.position.value)
    ensures Step(cfg, s, tick).cash >= 0.0
    ensures Step(cfg, s, tick).position.Some? ==> NonNegative(Step(cfg, s, tick).position.value)
  {
    if s.position.Some? {
      var p := s.position.value;
      ManageExit(cfg, p, tick);
      if tick.price > p.currentStopPrice {
        ManageHeld(cfg, p, tick);
        assert Manage(cfg, p, tick).p.currentStopPrice >= 0.0 by {
          var q := TrackHigh(p, tick.price);
          assert Arm(cfg, q, tick.price).currentStopPrice >= 0.0;
        }
      } else {
        assert ExitProceeds(TrackHigh(p, tick.price)) >= 0.0 by {
          var q := TrackHigh(p, tick.price);
          assert StopExitPrice(q) >= 0.0;
          assert q.size * StopExitPrice(q) >= 0.0;
        }
      }
    }
    var price := tick.price * (1.0 + SlippagePercent);
    assert price > 0.0;
    assert cfg.usdtPerTrade / price >= 0.0;
  }

  /** Every entry is paid for: cash never goes negative when stops and sizes are non-negative. */
  lemma {:induction false} RunCashNonNegative(cfg: Config, s: Sim, ticks: seq<Tick>)
    requires PositivePrices(ticks) && cfg.usdtPerTrade >= 0.0
    requires forall i :: 0 <= i < |ticks| ==> ticks[i].stopLossPrice >= 0.0
    requires s.cash >= 0.0
    requires s.position.Some? ==> NonNegative(s.position.value)
    ensures Run(cfg, s, ticks).cash >= 0.0
    ensures Run(cfg, s, ticks).position.Some? ==> NonNegative(Run(cfg, s, ticks).position.value)
    decreases |ticks|
  {
    if ticks != [] {
      var n := |ticks| - 1;
      var prefix := ticks[..n];
      assert forall i :: 0 <= i < n ==> prefix[i] == ticks[i];
      RunCashNonNegative(cfg, s, prefix);
      StepCashNonNegative(cfg, Run(cfg, s, prefix), ticks[n]);
    }
  }

  /**
   * Worked example: entry 100, activation 2%, callback 1%. A tick at 102
   * arms the trail at 100 and ratchets straight to 100.98; 110 ratchets to
   * 108.9; 105 is below that, so the position exits as a trailing stop.
   */
  lemma WorkedExample(size: real, initialStop: real)
    requires initialStop < 100.0
    ensures var cfg := BacktestConfig;
            var p0 := Position(size, 100.0, 0, 100.0 * size, initialStop, false, 100.0);
            && Manage(cfg, p0, Tick(1, 102.0, true, false, 0.0)).Held?
            && Manage(cfg, p0, Tick(1, 102.0, true, false, 0.0)).p.currentStopPrice == 100.98
            && var p1 := Manage(cfg, p0, Tick(1, 102.0, true, false, 0.0)).p;
            && Manage(cfg, p1, Tick(2, 110.0, true, false, 0.0)).Held?
            && Manage(cfg, p1, Tick(2, 110.0, true, false, 0.0)).p.currentStopPrice == 108.9
            && var p2 := Manage(cfg, p1, Tick(2, 110.0, true, false, 0.0)).p;
            && Manage(cfg, p2, Tick(3, 105.0, true, false, 0.0)).Exited?
            && Manage(cfg, p2, Tick(3, 105.0, true, false, 0.0)).trade.reason == TrailingStopHit
            && Manage(cfg, p2, Tick(3, 105.0, true, false, 0.0)).trade.exitPrice == 108.9 * 0.9995
  {
  }
}
