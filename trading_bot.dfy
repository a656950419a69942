/**
 * The live bot's main loop (src/bot/trading_bot.py). Each iteration
 * answers a /status request, detects positions whose OCO bracket is gone
 * (and closes them, starting a 300 s cooldown), saves state at most every
 * 300 s, then walks the symbols: skip on a zero price or empty candles,
 * BUY when flat and out of cooldown with room under the cap and enough
 * balance, SELL when long.
 *
 * The exchange is an oracle: every answer it gives during an iteration is
 * part of that iteration's input, and the orders the bot places are
 * returned as a trace. The clock is one `now` per iteration. The strategy's
 * verdict is an input as well.
 */
module TradingBot {
  import opened Wrappers
  import BotRiskManager

  type Position = BotRiskManager.Position

  datatype Signal = Buy | Sell | Hold

  /** The orders the bot sends to the exchange. */
  datatype OrderCall =
    | MarketBuy(symbol: string, amount: real)
    | PlaceOco(symbol: string, amount: real, takeProfitPrice: real, stopLossPrice: real)
    | CancelOrderList(symbol: string, orderListId: string)
    | MarketSell(symbol: string, amount: real)

  /** A market buy's answer: its "price" field if present, and the filled amount. */
  datatype BuyFill = BuyFill(price: Option<real>, filled: real)

  /**
   * What the exchange and the strategy answer for one symbol in one
   * iteration. `price` is 0 when the ticker fetch failed (the source
   * returns 0 then); `balance` likewise. `buy` is None when the market buy
   * raises or when reading its answer does (a null "price", a missing
   * "filled"): either way one market buy was sent and nothing is recorded.
   * `oco` is None when placing the OCO raises and otherwise the
   * list id's text, `cancelOk`/`sellOk` are false when those calls raise.
   */
  datatype SymbolTick = SymbolTick(
    price: real,
    hasCandles: bool,
    signal: Signal,
    balance: real,
    buy: Option<BuyFill>,
    oco: Option<string>,
    cancelOk: bool,
    sellOk: bool)

  /** Everything one loop iteration observes. A symbol missing from `openOrders` is a fetch that raised. */
  datatype Iteration = Iteration(now: real, statusRequested: bool, openOrders: map<string, seq<string>>, ticks: seq<SymbolTick>)

  datatype IterationResult = Completed(saved: bool, calls: seq<OrderCall>) | Crashed

  /** A loaded state file: its "positions" entry, if it has one. */
  datatype SavedState = SavedState(positions: Option<map<string, Position>>)

  const PositionCooldown: real := 300.0
  const StateSaveInterval: real := 300.0

  // ---- exit detection --------------------------------------------------

  /** `str(oco_list_id)`: the list id's text, or "None". */
  function RefText(ocoListId: Option<string>): string
  {
    if ocoListId.Some? then ocoListId.value else "None"
  }

  /** Python's `sub in text` on strings. */
  predicate IsSubstring(sub: string, text: string)
    decreases |text|
  {
    sub <= text || (text != [] && IsSubstring(sub, text[1..]))
  }

  /** Some open order's id occurs inside the list id's text. */
  predicate AnyIdIn(orderIds: seq<string>, text: string)
  {
    exists k :: 0 <= k < |orderIds| && IsSubstring(orderIds[k], text)
  }

  function OpenOrdersOf(openOrders: map<string, seq<string>>, symbol: string): Option<seq<string>>
  {
    if symbol in openOrders then Some(openOrders[symbol]) else None
  }

  /**
   * The exit rule for one record: it is open, the open-order fetch
   * succeeded, no open order's id occurs in the text of its list id, and
   * its entry price is non-zero (a zero entry price makes the PnL
   * percentage raise before the close).
   */
  predicate ExitDetected(p: Position, orders: Option<seq<string>>)
  {
    p.size > 0.0 && orders.Some? && !AnyIdIn(orders.value, RefText(p.ocoListId)) && p.entryPrice != 0.0
  }

  /** The symbols among `symbols` whose record the exit rule closes. */
  function ClosedSet(positions: map<string, Position>, symbols: seq<string>, openOrders: map<string, seq<string>>): set<string>
  {
    set s | s in symbols && s in positions && ExitDetected(positions[s], OpenOrdersOf(openOrders, s))
  }

  /** The ledger after the exit pass over `symbols`. */
  function ExitsApplied(positions: map<string, Position>, symbols: seq<string>, openOrders: map<string, seq<string>>): (m: map<string, Position>)
    ensures m.Keys == positions.Keys
  {
    map s | s in positions :: if s in ClosedSet(positions, symbols, openOrders) then BotRiskManager.Flat else positions[s]
  }

  /** Cooldown stamps after the exit pass: each closed symbol gets `now`. */
  function Stamped(lastTradeTime: map<string, real>, closed: set<string>, now: real): (m: map<string, real>)
    ensures m.Keys == lastTradeTime.Keys + closed
  {
    map s | s in lastTradeTime.Keys + closed :: if s in closed then now else lastTradeTime[s]
  }

  /** An empty open-order list means every open record with a non-zero entry counts as closed. */
  lemma NoOpenOrdersMeansClosed(p: Position)
    requires p.size > 0.0 && p.entryPrice != 0.0
    ensures ExitDetected(p, Some([]))
  {
  }

  /**
   * The test compares order ids with the list id's text: an OCO whose two
   * legs are still open, with ids that do not occur in its list id, is
   * taken as closed.
   */
  lemma LegIdsOutsideListIdCountAsClosed()
    ensures ExitDetected(BotRiskManager.Position(1.0, 100.0, Some("17")), Some(["2001", "2002"]))
  {
    assert !IsSubstring("2001", "7");
    assert !IsSubstring("2002", "7");
    assert forall k :: 0 <= k < 2 ==> !IsSubstring(["2001", "2002"][k], "17");
  }

  /** An open leg whose id is the list id's text keeps the position open. */
  lemma MatchingIdKeepsOpen(p: Position, orderIds: seq<string>, k: nat)
    requires p.ocoListId.Some? && k < |orderIds| && orderIds[k] == p.ocoListId.value
    ensures !ExitDetected(p, Some(orderIds))
  {
    assert IsSubstring(orderIds[k], RefText(p.ocoListId));
  }

  // ---- per-symbol decisions -------------------------------------------

  /** `last_trade_time.get(symbol, 0)`. */
  function LastTrade(lastTradeTime: map<string, real>, symbol: string): real
  {
    if symbol in lastTradeTime then lastTradeTime[symbol] else 0.0
  }

  datatype Decision = Skip | BuyAttempt | SellAttempt

  /**
   * Python truthiness of the stored list id. The exchange's `orderListId` is
   * an integer; the model keeps it as its decimal text, so None, the empty
   * text and "0" (the integer 0) are false.
   */
  predicate Truthy(ocoListId: Option<string>)
  {
    ocoListId.Some? && ocoListId.value != "" && ocoListId.value != "0"
  }

  /** Which branch the symbol takes this iteration. */
  function Gate(rm: BotRiskManager.RiskManager, positions: map<string, Position>, lastTradeTime: map<string, real>,
                symbol: string, t: SymbolTick, now: real): Decision
    requires symbol in positions
  {
    var size := positions[symbol].size;
    if t.price == 0.0 || !t.hasCandles then Skip
    else if t.signal == Buy && size == 0.0 then
      if now - LastTrade(lastTradeTime, symbol) < PositionCooldown then Skip
      else if !(BotRiskManager.OpenCount(positions) < rm.maxOpenTrades) then Skip
      else if t.balance >= rm.usdtPerTrade then BuyAttempt
      else Skip
    else if t.signal == Sell && size > 0.0 then SellAttempt
    else Skip
  }

  datatype Effect = Effect(positions: map<string, Position>, calls: seq<OrderCall>)

  /** The BUY branch: market buy, OCO bracket at the fill price, then the ledger entry. */
  function BuyEffect(rm: BotRiskManager.RiskManager, positions: map<string, Position>, symbol: string, t: SymbolTick): Effect
    requires t.price != 0.0
  {
    var buy := [MarketBuy(symbol, rm.CalculateTradeSize(t.price))];
    match t.buy
    case None => Effect(positions, buy)
    case Some(fill) =>
      var entryPrice := if fill.price.Some? then fill.price.value else t.price;
      var calls := buy + [PlaceOco(symbol, fill.filled, rm.GetTakeProfitPrice(entryPrice), rm.GetStopLossPrice(entryPrice))];
      match t.oco
      case None => Effect(positions, calls)
      case Some(id) => Effect(positions[symbol := BotRiskManager.Position(fill.filled, entryPrice, Some(id))], calls)
  }

  /** The SELL branch: cancel a truthy OCO list, market sell the whole size, then close. */
  function SellEffect(positions: map<string, Position>, symbol: string, t: SymbolTick): Effect
    requires symbol in positions
  {
    var p := positions[symbol];
    var cancel := if Truthy(p.ocoListId) then [CancelOrderList(symbol, p.ocoListId.value)] else [];
    if Truthy(p.ocoListId) && !t.cancelOk then Effect(positions, cancel)
    else
      var calls := cancel + [MarketSell(symbol, p.size)];
      if !t.sellOk || p.entryPrice == 0.0 then Effect(positions, calls)
      else Effect(positions[symbol := BotRiskManager.Flat], calls)
  }

  function SymbolStep(rm: BotRiskManager.RiskManager, positions: map<string, Position>, lastTradeTime: map<string, real>,
                      symbol: string, t: SymbolTick, now: real): (e: Effect)
    requires symbol in positions
    ensures e.positions.Keys == positions.Keys
    ensures forall s :: s in positions && s != symbol ==> e.positions[s] == positions[s]
  {
    match Gate(rm, positions, lastTradeTime, symbol, t, now)
    case Skip => Effect(positions, [])
    case BuyAttempt => BuyEffect(rm, positions, symbol, t)
    case SellAttempt => SellEffect(positions, symbol, t)
  }

  /**
   * A market buy is sent exactly when the price is non-zero, candles came
   * back, the signal is BUY, the symbol is flat, at least 300 s have passed
   * since its last SL/TP exit, fewer than the cap are open, and the balance
   * covers `usdtPerTrade`.
   */
  lemma BuyGating(rm: BotRiskManager.RiskManager, positions: map<string, Position>, lastTradeTime: map<string, real>,
                  symbol: string, t: SymbolTick, now: real)
    requires symbol in positions
    ensures var calls := SymbolStep(rm, positions, lastTradeTime, symbol, t, now).calls;
            (calls != [] && calls[0].MarketBuy?) <==>
              (t.price != 0.0 && t.hasCandles && t.signal == Buy && positions[symbol].size == 0.0 &&
               now - LastTrade(lastTradeTime, symbol) >= PositionCooldown &&
               BotRiskManager.OpenCount(positions) < rm.maxOpenTrades && t.balance >= rm.usdtPerTrade)
  {
  }

  /**
   * A SELL acts only on a long position; it cancels the OCO list only when
   * the stored id is truthy, and the ledger is reset only when the sell
   * went through.
   */
  lemma SellGating(rm: BotRiskManager.RiskManager, positions: map<string, Position>, lastTradeTime: map<string, real>,
                   symbol: string, t: SymbolTick, now: real)
    requires symbol in positions
    requires t.price != 0.0 && t.hasCandles && t.signal == Sell
    ensures var e := SymbolStep(rm, positions, lastTradeTime, symbol, t, now);
            && (positions[symbol].size <= 0.0 ==> e == Effect(positions, []))
            && (positions[symbol].size > 0.0 ==>
                  && (e.calls != [] && e.calls[0].CancelOrderList? <==> Truthy(positions[symbol].ocoListId))
                  && (e.positions[symbol] != positions[symbol] ==>
                        e.positions[symbol] == BotRiskManager.Flat && t.sellOk &&
                        MarketSell(symbol, positions[symbol].size) in e.calls))
    ensures var e := SymbolStep(rm, positions, lastTradeTime, symbol, t, now);
            var p := positions[symbol];
            var cancel := if Truthy(p.ocoListId) then [CancelOrderList(symbol, p.ocoListId.value)] else [];
            p.size > 0.0 ==>
              // A failed cancel stops before the sell.
              && (Truthy(p.ocoListId) && !t.cancelOk ==> e == Effect(positions, cancel))
              // Otherwise the sell is sent; the ledger is flattened exactly when it and the pnl report go through.
              && (!Truthy(p.ocoListId) || t.cancelOk ==>
                    && e.calls == cancel + [MarketSell(symbol, p.size)]
                    && e.positions == (if t.sellOk && p.entryPrice != 0.0 then positions[symbol := BotRiskManager.Flat] else positions))
  {
  }

  /** A symbol with no price or no candles changes nothing and sends nothing. */
  lemma SkipWithoutData(rm: BotRiskManager.RiskManager, positions: map<string, Position>, lastTradeTime: map<string, real>,
                        symbol: string, t: SymbolTick, now: real)
    requires symbol in positions
    requires t.price == 0.0 || !t.hasCandles
    ensures SymbolStep(rm, positions, lastTradeTime, symbol, t, now) == Effect(positions, [])
  {
  }

  /**
   * The bracket placed after a buy sits around the fill price: stop below,
   * target above, for positive prices and percentages under 100%.
   */
  lemma BracketAroundEntry(rm: BotRiskManager.RiskManager, positions: map<string, Position>, lastTradeTime: map<string, real>,
                           symbol: string, t: SymbolTick, now: real)
    requires symbol in positions
    requires 0.0 < rm.stopLossPct < 1.0 && rm.takeProfitPct > 0.0
    requires t.buy.Some? && (t.buy.value.price.Some? ==> t.buy.value.price.value > 0.0) && t.price > 0.0
    ensures var calls := SymbolStep(rm, positions, lastTradeTime, symbol, t, now).calls;
            forall k :: 0 <= k < |calls| && calls[k].PlaceOco? ==>
              0.0 < calls[k].stopLossPrice < calls[k].takeProfitPrice
  {
  }

  /** The per-symbol step never takes the open count over the cap. */
  lemma {:induction false} StepKeepsCap(rm: BotRiskManager.RiskManager, positions: map<string, Position>, lastTradeTime: map<string, real>,
                                        symbol: string, t: SymbolTick, now: real)
    requires symbol in positions
    requires BotRiskManager.OpenCount(positions) <= rm.maxOpenTrades
    ensures BotRiskManager.OpenCount(SymbolStep(rm, positions, lastTradeTime, symbol, t, now).positions) <= rm.maxOpenTrades
  {
    var e := SymbolStep(rm, positions, lastTradeTime, symbol, t, now);
    if e.positions != positions {
      var p := e.positions[symbol];
      assert e.positions == positions[symbol := p];
      BotRiskManager.WriteKeepsOthers(positions, symbol, p);
      var before, after := BotRiskManager.OpenSymbols(positions), BotRiskManager.OpenSymbols(e.positions);
      assert after <= before + {symbol};
      if Gate(rm, positions, lastTradeTime, symbol, t, now) == BuyAttempt {
        assert symbol !in before;
        assert |before + {symbol}| == |before| + 1;
        SubsetSize(after, before + {symbol});
      } else {
        BotRiskManager.ResetRemovesOne(positions, symbol);
      }
    }
  }

  lemma SubsetSize<T>(a: set<T>, b: set<T>)
    requires a <= b
    ensures |a| <= |b|
  {
    assert b == a + (b - a);
  }

  // ---- the bot ---------------------------------------------------------

  /** The per-symbol steps over the whole symbol list, in order. */
  function SymbolsStep(rm: BotRiskManager.RiskManager, positions: map<string, Position>, lastTradeTime: map<string, real>,
                       symbols: seq<string>, ticks: seq<SymbolTick>, now: real): (e: Effect)
    requires |ticks| == |symbols|
    requires forall s :: s in symbols ==> s in positions
    ensures e.positions.Keys == positions.Keys
    decreases |symbols|
  {
    if symbols == [] then Effect(positions, [])
    else
      var n := |symbols| - 1;
      assert forall s :: s in symbols[..n] ==> s in symbols;
      var before := SymbolsStep(rm, positions, lastTradeTime, symbols[..n], ticks[..n], now);
      var here := SymbolStep(rm, before.positions, lastTradeTime, symbols[n], ticks[n], now);
      Effect(here.positions, before.calls + here.calls)
  }

  /** The whole symbol pass keeps the open count under the cap. */
  lemma {:induction false} SymbolsStepKeepsCap(rm: BotRiskManager.RiskManager, positions: map<string, Position>,
                                               lastTradeTime: map<string, real>, symbols: seq<string>,
                                               ticks: seq<SymbolTick>, now: real)
    requires |ticks| == |symbols|
    requires forall s :: s in symbols ==> s in positions
    requires BotRiskManager.OpenCount(positions) <= rm.maxOpenTrades
    ensures BotRiskManager.OpenCount(SymbolsStep(rm, positions, lastTradeTime, symbols, ticks, now).positions) <= rm.maxOpenTrades
    decreases |symbols|
  {
    if symbols != [] {
      var n := |symbols| - 1;
      assert forall s :: s in symbols[..n] ==> s in symbols;
      SymbolsStepKeepsCap(rm, positions, lastTradeTime, symbols[..n], ticks[..n], now);
      var before := SymbolsStep(rm, positions, lastTradeTime, symbols[..n], ticks[..n], now);
      StepKeepsCap(rm, before.positions, lastTradeTime, symbols[n], ticks[n], now);
    }
  }

  // ---- the strategy call as written ----------------------------------

  /** A symbol whose price and candles came back goes on to ask the strategy for a signal. */
  predicate ReachesSignal(t: SymbolTick)
  {
    t.price != 0.0 && t.hasCandles
  }

  /**
   * The symbol loop as written. The strategy call passes the candles and
   * the price, while the strategy's method takes two candle frames and the
   * price, so that call raises TypeError; the iteration's exception handler
   * catches it. The result is the index of the symbol where the pass stops
   * that way, or None when every symbol is skipped first.
   */
  function SignalCallRaisesAt(ticks: seq<SymbolTick>): (r: Option<nat>)
    ensures r.Some? ==> r.value < |ticks| && ReachesSignal(ticks[r.value])
    ensures r.Some? ==> forall k :: 0 <= k < r.value ==> !ReachesSignal(ticks[k])
    ensures r.None? ==> forall k :: 0 <= k < |ticks| ==> !ReachesSignal(ticks[k])
    decreases |ticks|
  {
    if ticks == [] then None
    else if ReachesSignal(ticks[0]) then Some(0)
    else match SignalCallRaisesAt(ticks[1..])
      case None => None
      case Some(k) => Some(k + 1)
  }

  /** Symbols that are all skipped leave the ledger alone and send nothing. */
  lemma {:induction false} SkippedPrefix(rm: BotRiskManager.RiskManager, positions: map<string, Position>,
                                         lastTradeTime: map<string, real>, symbols: seq<string>,
                                         ticks: seq<SymbolTick>, now: real, n: nat)
    requires |ticks| == |symbols| && n <= |symbols|
    requires forall s :: s in symbols ==> s in positions
    requires forall k :: 0 <= k < n ==> !ReachesSignal(ticks[k])
    ensures forall s :: s in symbols[..n] ==> s in positions
    ensures SymbolsStep(rm, positions, lastTradeTime, symbols[..n], ticks[..n], now) == Effect(positions, [])
  {
    assert forall s :: s in symbols[..n] ==> s in symbols;
    if n > 0 {
      SkippedPrefix(rm, positions, lastTradeTime, symbols, ticks, now, n - 1);
      assert symbols[..n][..n - 1] == symbols[..n - 1] && ticks[..n][..n - 1] == ticks[..n - 1];
      SkipWithoutData(rm, positions, lastTradeTime, symbols[n - 1], ticks[n - 1], now);
    }
  }

  /**
   * As written, the symbol loop never sends an order: everything it does
   * before the failing strategy call (or over the whole pass, when no
   * symbol reaches it) is what the corrected loop does on skipped symbols,
   * namely nothing.
   */
  lemma AsWrittenPassSendsNothing(rm: BotRiskManager.RiskManager, positions: map<string, Position>,
                                  lastTradeTime: map<string, real>, symbols: seq<string>,
                                  ticks: seq<SymbolTick>, now: real)
    requires |ticks| == |symbols|
    requires forall s :: s in symbols ==> s in positions
    ensures var stop := SignalCallRaisesAt(ticks);
            var done := if stop.Some? then stop.value else |symbols|;
            && (forall s :: s in symbols[..done] ==> s in positions)
            && SymbolsStep(rm, positions, lastTradeTime, symbols[..done], ticks[..done], now) == Effect(positions, [])
  {
    var stop := SignalCallRaisesAt(ticks);
    var done := if stop.Some? then stop.value else |symbols|;
    SkippedPrefix(rm, positions, lastTradeTime, symbols, ticks, now, done);
  }

  /**
   * The input that shows it: one flat symbol, a BUY signal, a price and
   * enough balance. The corrected loop sends a market buy; as written the
   * pass stops at that symbol before any order.
   */
  lemma SignalArityBlocksBuy(rm: BotRiskManager.RiskManager)
    requires rm.usdtPerTrade == 100.0 && rm.maxOpenTrades == 3
    ensures var t := SymbolTick(2.0, true, Buy, 500.0, None, None, true, true);
            var positions := map["DOGE/USDT" := BotRiskManager.Flat];
            && SignalCallRaisesAt([t]) == Some(0)
            && SymbolsStep(rm, positions, map[], ["DOGE/USDT"], [t], 1000.0).calls[0] == MarketBuy("DOGE/USDT", 50.0)
  {
  }

  /** /status raises on an unregistered symbol or an open record with a zero entry price. */
  predicate StatusCrashes(positions: map<string, Position>, symbols: seq<string>)
  {
    exists s :: s in symbols && (s !in positions || (positions[s].size > 0.0 && positions[s].entryPrice == 0.0))
  }

  class TradingBot {
    const symbols: seq<string>
    const riskManager: BotRiskManager.RiskManager
    var lastStateSave: real
    var lastTradeTime: map<string, real>

    /**
     * Builds the ledger with the source's defaults (100 USDT, 3% stop, 6%
     * target, 3 open trades), then restores a saved state.
     */
    constructor (symbols: seq<string>, now: real, saved: Option<SavedState>)
      ensures this.symbols == symbols && lastStateSave == now && lastTradeTime == map[]
      ensures riskManager.usdtPerTrade == 100.0 && riskManager.stopLossPct == 0.03
      ensures riskManager.takeProfitPct == 0.06 && riskManager.maxOpenTrades == 3
      ensures saved.Some? && saved.value.positions.Some? ==> riskManager.positions == saved.value.positions.value
      ensures !(saved.Some? && saved.value.positions.Some?) ==> riskManager.positions == BotRiskManager.FlatLedger(symbols)
      ensures fresh(riskManager)
    {
      this.symbols := symbols;
      riskManager := new BotRiskManager.RiskManager(symbols, 100.0, 0.03, 0.06, 3);
      lastStateSave := now;
      lastTradeTime := map[];
      new;
      assert riskManager.positions == BotRiskManager.FlatLedger(symbols);
      RestoreState(saved);
    }

    /** Replaces the whole ledger when the loaded state has a "positions" entry; otherwise nothing changes. */
    method RestoreState(saved: Option<SavedState>)
      modifies riskManager
      ensures saved.Some? && saved.value.positions.Some? ==> riskManager.positions == saved.value.positions.value
      ensures !(saved.Some? && saved.value.positions.Some?) ==> riskManager.positions == old(riskManager.positions)
    {
      if saved.Some? && saved.value.positions.Some? {
        riskManager.positions := saved.value.positions.value;
      }
    }

    /**
     * `_check_for_exits`. Reading the size of an unregistered symbol raises
     * outside the try block: the pass stops there with the earlier symbols
     * handled, and the iteration crashes.
     */
    method CheckForExits(openOrders: map<string, seq<string>>, now: real) returns (crashed: bool)
      modifies riskManager, this`lastTradeTime
      ensures crashed <==> exists s :: s in symbols && s !in old(riskManager.positions)
      ensures !crashed ==>
                riskManager.positions == ExitsApplied(old(riskManager.positions), symbols, openOrders) &&
                lastTradeTime == Stamped(old(lastTradeTime), ClosedSet(old(riskManager.positions), symbols, openOrders), now)
      ensures crashed ==>
                exists k :: 0 <= k < |symbols| && symbols[k] !in old(riskManager.positions) &&
                  riskManager.positions == ExitsApplied(old(riskManager.positions), symbols[..k], openOrders) &&
                  lastTradeTime == Stamped(old(lastTradeTime), ClosedSet(old(riskManager.positions), symbols[..k], openOrders), now)
    {
      ghost var start := riskManager.positions;
      ghost var startStamps := lastTradeTime;
      for i := 0 to |symbols|
        invariant forall j :: 0 <= j < i ==> symbols[j] in start
        invariant riskManager.positions == ExitsApplied(start, symbols[..i], openOrders)
        invariant lastTradeTime == Stamped(startStamps, ClosedSet(start, symbols[..i], openOrders), now)
      {
        var symbol := symbols[i];
        if symbol !in riskManager.positions {
          assert symbols[i] !in start;
          return true;
        }
        ExitStep(start, symbols[..i], symbol, openOrders);
        StampStep(startStamps, ClosedSet(start, symbols[..i], openOrders), symbol, now);
        assert symbols[..i + 1] == symbols[..i] + [symbol];
        CheckExit(symbol, openOrders, now);
      }
      assert symbols[..|symbols|] == symbols;
      return false;
    }

    /** One symbol of the exit pass: close and stamp it when the exit rule holds. */
    method CheckExit(symbol: string, openOrders: map<string, seq<string>>, now: real)
      requires symbol in riskManager.positions
      modifies riskManager, this`lastTradeTime
      ensures ExitDetected(old(riskManager.positions)[symbol], OpenOrdersOf(openOrders, symbol)) ==>
                riskManager.positions == old(riskManager.positions)[symbol := BotRiskManager.Flat] &&
                lastTradeTime == old(lastTradeTime)[symbol := now]
      ensures !ExitDetected(old(riskManager.positions)[symbol], OpenOrdersOf(openOrders, symbol)) ==>
                riskManager.positions == old(riskManager.positions) && lastTradeTime == old(lastTradeTime)
    {
      var size := riskManager.GetPositionSize(symbol).value;
      if size > 0.0 {
        var ocoListId := riskManager.GetOpenOrderId(symbol).value;
        if symbol in openOrders {
          var openOrdersHere := openOrders[symbol];
          if !AnyIdIn(openOrdersHere, RefText(ocoListId)) {
            var entryPrice := riskManager.GetEntryPrice(symbol).value;
            if entryPrice != 0.0 {
              riskManager.ClosePosition(symbol);
              lastTradeTime := lastTradeTime[symbol := now];
            }
          }
        }
      }
    }

    /**
     * One symbol of the main loop, from the gating tests to the orders and
     * the ledger write.
     */
    method ProcessSymbol(symbol: string, t: SymbolTick, now: real) returns (calls: seq<OrderCall>)
      requires symbol in riskManager.positions
      modifies riskManager
      ensures riskManager.positions == SymbolStep(riskManager, old(riskManager.positions), lastTradeTime, symbol, t, now).positions
      ensures calls == SymbolStep(riskManager, old(riskManager.positions), lastTradeTime, symbol, t, now).calls
    {
      calls := [];
      var positionSize := riskManager.GetPositionSize(symbol).value;
      var currentPrice := t.price;
      if currentPrice == 0.0 || !t.hasCandles {
        return;
      }
      if t.signal == Buy && positionSize == 0.0 {
        if now - LastTrade(lastTradeTime, symbol) < PositionCooldown {
          return;
        }
        if !riskManager.CanOpenNewPosition() {
          return;
        }
        if t.balance >= riskManager.usdtPerTrade {
          var tradeSize := riskManager.CalculateTradeSize(currentPrice);
          calls := calls + [MarketBuy(symbol, tradeSize)];
          if t.buy.None? {
            return;
          }
          var fill := t.buy.value;
          var entryPrice := if fill.price.Some? then fill.price.value else currentPrice;
          var filledSize := fill.filled;
          var slPrice := riskManager.GetStopLossPrice(entryPrice);
          var tpPrice := riskManager.GetTakeProfitPrice(entryPrice);
          calls := calls + [PlaceOco(symbol, filledSize, tpPrice, slPrice)];
          if t.oco.None? {
            return;
          }
          var _ := riskManager.OpenPosition(symbol, filledSize, entryPrice, t.oco);
        }
      } else if t.signal == Sell && positionSize > 0.0 {
        var ocoListId := riskManager.GetOpenOrderId(symbol).value;
        if Truthy(ocoListId) {
          calls := calls + [CancelOrderList(symbol, ocoListId.value)];
          if !t.cancelOk {
            return;
          }
        }
        var entryPrice := riskManager.GetEntryPrice(symbol).value;
        calls := calls + [MarketSell(symbol, positionSize)];
        if !t.sellOk || entryPrice == 0.0 {
          return;
        }
        riskManager.ClosePosition(symbol);
      }
    }

    /**
     * One iteration of `run`'s loop: commands, exits, the save cadence,
     * then the symbols. A crash anywhere ends the iteration; the loop goes on.
     */
    method RunIteration(it: Iteration) returns (r: IterationResult)
      requires |it.ticks| == |symbols|
      modifies this, riskManager
      ensures old(BotRiskManager.OpenCount(riskManager.positions)) <= riskManager.maxOpenTrades ==>
                BotRiskManager.OpenCount(riskManager.positions) <= riskManager.maxOpenTrades
      ensures it.statusRequested && StatusCrashes(old(riskManager.positions), symbols) ==>
                r == Crashed && riskManager.positions == old(riskManager.positions) &&
                lastTradeTime == old(lastTradeTime) && lastStateSave == old(lastStateSave)
      ensures r.Completed? ==>
                (forall s :: s in symbols ==> s in old(riskManager.positions)) &&
                r.saved == (it.now - old(lastStateSave) > StateSaveInterval) &&
                lastStateSave == (if r.saved then it.now else old(lastStateSave)) &&
                lastTradeTime == Stamped(old(lastTradeTime), ClosedSet(old(riskManager.positions), symbols, it.openOrders), it.now) &&
                var exited := ExitsApplied(old(riskManager.positions), symbols, it.openOrders);
                r.calls == SymbolsStep(riskManager, exited, lastTradeTime, symbols, it.ticks, it.now).calls &&
                riskManager.positions == SymbolsStep(riskManager, exited, lastTradeTime, symbols, it.ticks, it.now).positions
      ensures r == Crashed ==> lastStateSave == old(lastStateSave)
      // The iteration crashes exactly on a /status the formatter cannot handle or an unregistered symbol.
      ensures r == Crashed <==>
                (it.statusRequested && StatusCrashes(old(riskManager.positions), symbols)) ||
                (exists s :: s in symbols && s !in old(riskManager.positions))
      // A crash in the exit pass keeps the exits of the symbols before the unregistered one.
      ensures r == Crashed && !(it.statusRequested && StatusCrashes(old(riskManager.positions), symbols)) ==>
                exists k :: 0 <= k < |symbols| && symbols[k] !in old(riskManager.positions) &&
                  riskManager.positions == ExitsApplied(old(riskManager.positions), symbols[..k], it.openOrders)
    {
      if it.statusRequested && StatusCrashes(riskManager.positions, symbols) {
        return Crashed;
      }
      ghost var startCount := BotRiskManager.OpenCount(riskManager.positions);
      ghost var start := riskManager.positions;
      var crashed := CheckForExits(it.openOrders, it.now);
      ExitsKeepCap(start, symbols, it.openOrders, riskManager.maxOpenTrades);
      if crashed {
        ExitsPrefixKeepCap(start, symbols, it.openOrders, riskManager.maxOpenTrades);
        return Crashed;
      }
      var saved := false;
      if it.now - lastStateSave > StateSaveInterval {
        saved := true;
        lastStateSave := it.now;
      }
      ghost var exited := riskManager.positions;
      var calls := [];
      ghost var stamps := lastTradeTime;
      ghost var saveTime := lastStateSave;
      for i := 0 to |symbols|
        invariant lastTradeTime == stamps && lastStateSave == saveTime
        invariant riskManager.positions.Keys == exited.Keys
        invariant forall s :: s in symbols ==> s in exited
        invariant riskManager.positions == SymbolsStep(riskManager, exited, lastTradeTime, symbols[..i], it.ticks[..i], it.now).positions
        invariant calls == SymbolsStep(riskManager, exited, lastTradeTime, symbols[..i], it.ticks[..i], it.now).calls
      {
        assert symbols[..i + 1][..i] == symbols[..i] && it.ticks[..i + 1][..i] == it.ticks[..i];
        var more := ProcessSymbol(symbols[i], it.ticks[i], it.now);
        calls := calls + more;
      }
      assert symbols[..|symbols|] == symbols && it.ticks[..|symbols|] == it.ticks;
      if startCount <= riskManager.maxOpenTrades {
        SymbolsStepKeepsCap(riskManager, exited, lastTradeTime, symbols, it.ticks, it.now);
      }
      return Completed(saved, calls);
    }
  }

  /** The exit pass only removes symbols from the open set. */
  lemma ExitsKeepCap(positions: map<string, Position>, symbols: seq<string>, openOrders: map<string, seq<string>>, cap: int)
    ensures BotRiskManager.OpenSymbols(ExitsApplied(positions, symbols, openOrders)) <= BotRiskManager.OpenSymbols(positions)
    ensures BotRiskManager.OpenCount(positions) <= cap ==> BotRiskManager.OpenCount(ExitsApplied(positions, symbols, openOrders)) <= cap
  {
    SubsetSize(BotRiskManager.OpenSymbols(ExitsApplied(positions, symbols, openOrders)), BotRiskManager.OpenSymbols(positions));
  }

  lemma ExitsPrefixKeepCap(positions: map<string, Position>, symbols: seq<string>, openOrders: map<string, seq<string>>, cap: int)
    ensures forall k :: 0 <= k <= |symbols| && BotRiskManager.OpenCount(positions) <= cap ==>
              BotRiskManager.OpenCount(ExitsApplied(positions, symbols[..k], openOrders)) <= cap
  {
    forall k | 0 <= k <= |symbols| && BotRiskManager.OpenCount(positions) <= cap
      ensures BotRiskManager.OpenCount(ExitsApplied(positions, symbols[..k], openOrders)) <= cap
    {
      ExitsKeepCap(positions, symbols[..k], openOrders, cap);
    }
  }

  /**
   * Processing one more symbol in the exit pass: the rule is applied to
   * the record as the earlier symbols left it, which for a repeated symbol
   * is already settled.
   */
  lemma ExitStep(start: map<string, Position>, done: seq<string>, symbol: string, openOrders: map<string, seq<string>>)
    requires symbol in start
    ensures var cur := ExitsApplied(start, done, openOrders);
            var detected := ExitDetected(cur[symbol], OpenOrdersOf(openOrders, symbol));
            && ClosedSet(start, done + [symbol], openOrders) ==
                 ClosedSet(start, done, openOrders) + (if detected then {symbol} else {})
            && ExitsApplied(start, done + [symbol], openOrders) ==
                 (if detected then cur[symbol := BotRiskManager.Flat] else cur)
  {
    var cur := ExitsApplied(start, done, openOrders);
    var closedBefore := ClosedSet(start, done, openOrders);
    var closedAfter := ClosedSet(start, done + [symbol], openOrders);
    var detected := ExitDetected(cur[symbol], OpenOrdersOf(openOrders, symbol));
    assert closedAfter == closedBefore + (if ExitDetected(start[symbol], OpenOrdersOf(openOrders, symbol)) then {symbol} else {});
    assert !ExitDetected(BotRiskManager.Flat, OpenOrdersOf(openOrders, symbol));
    if symbol in closedBefore {
      assert !detected;
    } else {
      assert cur[symbol] == start[symbol];
    }
  }

  lemma StampStep(stamps: map<string, real>, closed: set<string>, symbol: string, now: real)
    ensures Stamped(stamps, closed + {symbol}, now) == Stamped(stamps, closed, now)[symbol := now]
  {
  }

  /**
   * `run`: iterations until the interrupt that ends the input. A crashed
   * iteration is followed by the next one; the cap is kept throughout.
   */
  method Run(bot: TradingBot, iterations: seq<Iteration>) returns (results: seq<IterationResult>)
    requires forall i :: 0 <= i < |iterations| ==> |iterations[i].ticks| == |bot.symbols|
    modifies bot, bot.riskManager
    ensures |results| == |iterations|
    ensures old(BotRiskManager.OpenCount(bot.riskManager.positions)) <= bot.riskManager.maxOpenTrades ==>
              BotRiskManager.OpenCount(bot.riskManager.positions) <= bot.riskManager.maxOpenTrades
  {
    results := [];
    ghost var capped := BotRiskManager.OpenCount(bot.riskManager.positions) <= bot.riskManager.maxOpenTrades;
    for i := 0 to |iterations|
      invariant |results| == i
      invariant capped ==> BotRiskManager.OpenCount(bot.riskManager.positions) <= bot.riskManager.maxOpenTrades
    {
      var r := bot.RunIteration(iterations[i]);
      results := results + [r];
    }
  }
}
