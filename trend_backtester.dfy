/**
 * The dynamic trend-following backtester (src/research/trend_backtester.py).
 * Each bar first walks the open positions and closes those whose stop or
 * take-profit the bar touched (the stop first), then asks the configured
 * entry setup whether to open one more position. Indicator columns come
 * with each bar already computed, and the random 5% entry skip comes as a
 * per-bar flag.
 */
module TrendBacktest {
  import opened Wrappers

  const Spread: real := 0.0005
  const Slippage: real := 0.0005
  const FeeRate: real := 0.001
  const InitialEquity: real := 100.0

  datatype Side = Buy | Sell | StopLoss

  /** Fills include the spread and slippage; a stop fill slips further with volatility. */
  function ExecutionPrice(idealPrice: real, side: Side, atrPct: real): real
  {
    match side
    case Buy => idealPrice * (1.0 + Spread + Slippage)
    case Sell => idealPrice * (1.0 - Spread - Slippage)
    case StopLoss =>
      var volatilitySlippage := Slippage * (1.0 + atrPct * 5.0);
      idealPrice * (1.0 - Spread - Slippage - volatilitySlippage)
  }

  /** For a positive ideal price and non-negative volatility: stop fill < sell fill < ideal < buy fill. */
  lemma ExecutionPriceOrder(ideal: real, atrPct: real)
    requires ideal > 0.0 && atrPct >= 0.0
    ensures ExecutionPrice(ideal, Buy, atrPct) == ideal * 1.001
    ensures ExecutionPrice(ideal, Sell, atrPct) == ideal * 0.999
    ensures ExecutionPrice(ideal, StopLoss, atrPct) == ideal * (1.0 - 0.001 - 0.0005 * (1.0 + 5.0 * atrPct))
    ensures ExecutionPrice(ideal, StopLoss, atrPct) < ExecutionPrice(ideal, Sell, atrPct) < ideal < ExecutionPrice(ideal, Buy, atrPct)
  {
    assert ideal * (1.0 - 0.001 - 0.0005 * (1.0 + 5.0 * atrPct)) < ideal * 0.999 by {
      assert 0.0005 * (1.0 + 5.0 * atrPct) > 0.0;
    }
  }

  /** One bar with its precomputed indicator columns and the outcome of the random entry skip. */
  datatype Bar = Bar(
    open: real, high: real, low: real, close: real, volume: real,
    sma200: real, sma50: real, rsi: real, volumeSma20: real, atr14: real, vwap: real,
    pullback5pct: bool, isFomc: bool, skipDraw: bool)

  /** Prices the filters divide by are positive. */
  predicate WellFormed(bars: seq<Bar>)
  {
    forall k :: 0 <= k < |bars| ==> bars[k].open > 0.0 && bars[k].close > 0.0 && bars[k].low > 0.0
  }

  /** The parameters the backtester reads; `entrySetup` may be absent. */
  datatype Params = Params(maxPositions: int, rsiEntryMax: real, positionSizePct: real,
                           stopLossPct: real, takeProfitPct: real, entrySetup: Option<string>)

  function Setup(params: Params): string
  {
    if params.entrySetup.None? then "A" else params.entrySetup.value
  }

  /** Room for another position, a candle that is not extended, normal volatility, no FOMC meeting. */
  predicate CommonFilters(params: Params, openCount: nat, bar: Bar)
    requires bar.open > 0.0 && bar.close > 0.0
  {
    && openCount < params.maxPositions
    && (bar.close - bar.open) / bar.open < 0.05
    && bar.atr14 / bar.close < 0.03
    && !bar.isFomc
  }

  /** The setup router: A (classic trend), B (pullback to the 50-day mean), C (volume spike); anything else never enters. */
  predicate EntryConditions(params: Params, openCount: nat, bar: Bar)
    requires bar.open > 0.0 && bar.close > 0.0
  {
    var setup := Setup(params);
    if setup == "A" then
      CommonFilters(params, openCount, bar) &&
      bar.close > bar.sma200 && bar.rsi < params.rsiEntryMax && bar.volume > bar.volumeSma20
    else if setup == "B" then
      CommonFilters(params, openCount, bar) && bar.close > bar.sma50 && bar.pullback5pct
    else if setup == "C" then
      CommonFilters(params, openCount, bar) && bar.close > bar.vwap && bar.volume > bar.volumeSma20 * 2.0
    else false
  }

  datatype TrendPosition = TrendPosition(entryIndex: nat, entryPrice: real, size: real, stopLoss: real, takeProfit: real)

  datatype ExitReason = StopLossExit | TakeProfitExit

  datatype Exit = Exit(reason: ExitReason, price: real)

  datatype ClosedTrade = ClosedTrade(position: TrendPosition, exitIndex: nat, exitPrice: real, pnl: real, reason: ExitReason)

  /**
   * The exit test of one position against a bar's low, high and ATR: the
   * stop is looked at first.
   */
  function ExitFor(low: real, high: real, atr14: real, pos: TrendPosition): (e: Option<Exit>)
    requires low > 0.0
    ensures e.Some? <==> low <= pos.stopLoss || high >= pos.takeProfit
    ensures e.Some? ==> (e.value.reason == StopLossExit <==> low <= pos.stopLoss)
  {
    if low <= pos.stopLoss then
      Some(Exit(StopLossExit, ExecutionPrice(pos.stopLoss, StopLoss, atr14 / pos.stopLoss)))
    else if high >= pos.takeProfit then
      Some(Exit(TakeProfitExit, ExecutionPrice(pos.takeProfit, Sell, 0.0)))
    else None
  }

  /** Price move times size, less the fee on both the entry and the exit notional. */
  function NetPnl(pos: TrendPosition, exitPrice: real): real
  {
    (exitPrice - pos.entryPrice) * pos.size - (pos.entryPrice * pos.size + exitPrice * pos.size) * FeeRate
  }

  /** What the walk over the open positions carries: equity, the trade log, the survivors. */
  datatype Book = Book(equity: real, trades: seq<ClosedTrade>, kept: seq<TrendPosition>)

  function ExitOne(index: nat, bar: Bar, b: Book, pos: TrendPosition): Book
    requires bar.low > 0.0
  {
    match ExitFor(bar.low, bar.high, bar.atr14, pos)
    case None => b.(kept := b.kept + [pos])
    case Some(e) =>
      var netPnl := NetPnl(pos, e.price);
      Book(b.equity + netPnl, b.trades + [ClosedTrade(pos, index, e.price, netPnl, e.reason)], b.kept)
  }

  function ExitPass(index: nat, bar: Bar, b: Book, positions: seq<TrendPosition>): Book
    requires bar.low > 0.0
    decreases |positions|
  {
    if positions == [] then b
    else ExitOne(index, bar, ExitPass(index, bar, b, positions[..|positions| - 1]), positions[|positions| - 1])
  }

  /** The positions the bar leaves open, as an independent filter. */
  function Survivors(bar: Bar, positions: seq<TrendPosition>): seq<TrendPosition>
    requires bar.low > 0.0
    decreases |positions|
  {
    if positions == [] then []
    else
      var n := |positions| - 1;
      Survivors(bar, positions[..n]) + (if ExitFor(bar.low, bar.high, bar.atr14, positions[n]).None? then [positions[n]] else [])
  }

  /**
   * The walk drops exactly the positions the bar hit and keeps the others
   * in order; every dropped position is logged as a trade.
   */
  lemma {:induction false} ExitPassKeepsSurvivors(index: nat, bar: Bar, b: Book, positions: seq<TrendPosition>)
    requires bar.low > 0.0
    ensures ExitPass(index, bar, b, positions).kept == b.kept + Survivors(bar, positions)
    ensures |ExitPass(index, bar, b, positions).trades| - |b.trades| + |Survivors(bar, positions)| == |positions|
    ensures |ExitPass(index, bar, b, positions).trades| >= |b.trades|
    ensures ExitPass(index, bar, b, positions).trades[..|b.trades|] == b.trades
    decreases |positions|
  {
    if positions != [] {
      var n := |positions| - 1;
      ExitPassKeepsSurvivors(index, bar, b, positions[..n]);
      var before := ExitPass(index, bar, b, positions[..n]);
      var after := ExitPass(index, bar, b, positions);
      if ExitFor(bar.low, bar.high, bar.atr14, positions[n]).None? {
        assert after.kept == before.kept + [positions[n]];
      } else {
        assert after.trades[..|b.trades|] == before.trades[..|b.trades|];
      }
    }
  }

  lemma {:induction false} SurvivorsShrink(bar: Bar, positions: seq<TrendPosition>)
    requires bar.low > 0.0
    ensures |Survivors(bar, positions)| <= |positions|
    ensures forall k :: 0 <= k < |Survivors(bar, positions)| ==> ExitFor(bar.low, bar.high, bar.atr14, Survivors(bar, positions)[k]).None?
    decreases |positions|
  {
    if positions != [] {
      SurvivorsShrink(bar, positions[..|positions| - 1]);
    }
  }

  /** The new position: a buy fill on the close, sized as a percentage of equity. */
  function Opened(params: Params, equity: real, index: nat, bar: Bar): TrendPosition
    requires bar.close > 0.0
  {
    var entryPrice := ExecutionPrice(bar.close, Buy, bar.atr14 / bar.close);
    var positionSizeUsd := equity * (params.positionSizePct / 100.0);
    TrendPosition(index, entryPrice, positionSizeUsd / entryPrice,
                  entryPrice * (1.0 - params.stopLossPct / 100.0),
                  entryPrice * (1.0 + params.takeProfitPct / 100.0))
  }

  /** The entry's quantity is worth the percentage of equity at the fill, bracketed by its stop and target. */
  lemma OpenedSizing(params: Params, equity: real, index: nat, bar: Bar)
    requires bar.close > 0.0
    ensures var p := Opened(params, equity, index, bar);
            && p.entryPrice == bar.close * 1.001
            && p.size * p.entryPrice == equity * params.positionSizePct / 100.0
            && (0.0 < params.stopLossPct ==> p.stopLoss < p.entryPrice)
            && (0.0 < params.takeProfitPct ==> p.entryPrice < p.takeProfit)
  {
  }

  datatype State = State(equity: real, equityCurve: seq<real>, trades: seq<ClosedTrade>, openPositions: seq<TrendPosition>)

  /** One bar: the exit walk, then an entry unless the random skip fires, which also skips the equity point. */
  function Step(params: Params, s: State, index: nat, bar: Bar): State
    requires bar.open > 0.0 && bar.close > 0.0 && bar.low > 0.0
  {
    var b := ExitPass(index, bar, Book(s.equity, s.trades, []), s.openPositions);
    var m := State(b.equity, s.equityCurve, b.trades, b.kept);
    if EntryConditions(params, |m.openPositions|, bar) then
      if bar.skipDraw then m
      else
        State(m.equity, m.equityCurve + [m.equity], m.trades, m.openPositions + [Opened(params, m.equity, index, bar)])
    else m.(equityCurve := m.equityCurve + [m.equity])
  }

  function Run(params: Params, s: State, bars: seq<Bar>): State
    requires WellFormed(bars)
    decreases |bars|
  {
    if bars == [] then s
    else
      var n := |bars| - 1;
      assert bars[n].open > 0.0 && bars[n].close > 0.0 && bars[n].low > 0.0;
      Step(params, Run(params, s, bars[..n]), n, bars[n])
  }

  class TrendBacktester {
    const params: Params
    var equity: real
    var equityCurve: seq<real>
    var trades: seq<ClosedTrade>
    var openPositions: seq<TrendPosition>

    constructor (params: Params)
      ensures this.params == params
      ensures equity == InitialEquity && equityCurve == [] && trades == [] && openPositions == []
    {
      this.params := params;
      equity, equityCurve, trades, openPositions := InitialEquity, [], [], [];
    }

    function Snapshot(): State
      reads this
    {
      State(equity, equityCurve, trades, openPositions)
    }

    /**
     * The exit walk of one bar over `openPositions`. The comprehension
     * that drops the closed positions is folded into the walk: a position
     * is kept exactly when it was not closed.
     */
    method CloseHitPositions(index: nat, bar: Bar)
      requires bar.low > 0.0
      modifies this`equity, this`trades, this`openPositions
      ensures Book(equity, trades, openPositions) ==
              ExitPass(index, bar, Book(old(equity), old(trades), []), old(openPositions))
    {
      var positions := openPositions;
      var kept: seq<TrendPosition> := [];
      for j := 0 to |positions|
        invariant Book(equity, trades, kept) == ExitPass(index, bar, Book(old(equity), old(trades), []), positions[..j])
      {
        assert positions[..j + 1][..j] == positions[..j];
        var pos := positions[j];
        ghost var walked := ExitPass(index, bar, Book(old(equity), old(trades), []), positions[..j]);
        assert ExitPass(index, bar, Book(old(equity), old(trades), []), positions[..j + 1]) == ExitOne(index, bar, walked, pos);
        var exit := ExitFor(bar.low, bar.high, bar.atr14, pos);
        if exit.Some? {
          var pnl := (exit.value.price - pos.entryPrice) * pos.size;
          var totalFees := (pos.entryPrice * pos.size + exit.value.price * pos.size) * FeeRate;
          var netPnl := pnl - totalFees;
          assert netPnl == NetPnl(pos, exit.value.price);
          equity := equity + netPnl;
          trades := trades + [ClosedTrade(pos, index, exit.value.price, netPnl, exit.value.reason)];
        } else {
          kept := kept + [pos];
        }
      }
      assert positions[..|positions|] == positions;
      openPositions := kept;
    }

    /** `run_backtest` over already-indicated bars; false for an empty frame. */
    method RunBacktest(bars: seq<Bar>) returns (ok: bool)
      requires WellFormed(bars)
      modifies this
      ensures ok <==> bars != []
      ensures Snapshot() == Run(params, old(Snapshot()), bars)
    {
      if bars == [] {
        return false;
      }
      for i := 0 to |bars|
        invariant Snapshot() == Run(params, old(Snapshot()), bars[..i])
      {
        assert bars[..i + 1][..i] == bars[..i];
        var bar := bars[i];
        assert bar.open > 0.0 && bar.close > 0.0 && bar.low > 0.0;
        ghost var before := Snapshot();
        CloseHitPositions(i, bar);
        if EntryConditions(params, |openPositions|, bar) {
          if bar.skipDraw {
            continue;
          }
          var position := Opened(params, equity, i, bar);
          openPositions := openPositions + [position];
        }
        equityCurve := equityCurve + [equity];
        assert Snapshot() == Step(params, before, i, bar);
      }
      assert bars[..|bars|] == bars;
      return true;
    }
  }

  // ---- properties ----------------------------------------------------

  /** A bar that reaches both the stop and the target closes the position as a stop loss. */
  lemma StopBeforeTakeProfit(bar: Bar, pos: TrendPosition)
    requires bar.low > 0.0 && bar.low <= pos.stopLoss && bar.high >= pos.takeProfit
    ensures ExitFor(bar.low, bar.high, bar.atr14, pos) == Some(Exit(StopLossExit, ExecutionPrice(pos.stopLoss, StopLoss, bar.atr14 / pos.stopLoss)))
  {
  }

  /** An unknown setup name never opens a position. */
  lemma UnknownSetupNeverEnters(params: Params, openCount: nat, bar: Bar)
    requires bar.open > 0.0 && bar.close > 0.0
    requires Setup(params) !in {"A", "B", "C"}
    ensures !EntryConditions(params, openCount, bar)
  {
  }

  /** Every setup refuses once the open count reaches the maximum. */
  lemma FullBookRefuses(params: Params, openCount: nat, bar: Bar)
    requires bar.open > 0.0 && bar.close > 0.0
    requires openCount >= params.maxPositions
    ensures !EntryConditions(params, openCount, bar)
  {
  }

  /** The cap: never more open positions than the maximum (none at all when the maximum is not positive). */
  predicate WithinCap(params: Params, s: State)
  {
    |s.openPositions| == 0 || |s.openPositions| <= params.maxPositions
  }

  lemma StepKeepsCap(params: Params, s: State, index: nat, bar: Bar)
    requires bar.open > 0.0 && bar.close > 0.0 && bar.low > 0.0
    requires WithinCap(params, s)
    ensures WithinCap(params, Step(params, s, index, bar))
  {
    ExitPassKeepsSurvivors(index, bar, Book(s.equity, s.trades, []), s.openPositions);
    SurvivorsShrink(bar, s.openPositions);
  }

  lemma {:induction false} RunKeepsCap(params: Params, s: State, bars: seq<Bar>)
    requires WellFormed(bars) && WithinCap(params, s)
    ensures WithinCap(params, Run(params, s, bars))
    decreases |bars|
  {
    if bars != [] {
      var n := |bars| - 1;
      assert WellFormed(bars[..n]) by {
        assert forall k :: 0 <= k < n ==> bars[..n][k] == bars[k];
      }
      RunKeepsCap(params, s, bars[..n]);
      StepKeepsCap(params, Run(params, s, bars[..n]), n, bars[n]);
    }
  }

  /**
   * At most one equity point per bar; exactly one per bar when the random
   * skip never fires.
   */
  lemma {:induction false} EquityPointPerBar(params: Params, s: State, bars: seq<Bar>)
    requires WellFormed(bars)
    ensures |Run(params, s, bars).equityCurve| <= |s.equityCurve| + |bars|
    ensures (forall k :: 0 <= k < |bars| ==> !bars[k].skipDraw) ==>
              |Run(params, s, bars).equityCurve| == |s.equityCurve| + |bars|
    decreases |bars|
  {
    if bars != [] {
      var n := |bars| - 1;
      assert forall k :: 0 <= k < n ==> bars[..n][k] == bars[k];
      EquityPointPerBar(params, s, bars[..n]);
    }
  }
}
