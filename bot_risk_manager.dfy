/**
 * The live bot's per-symbol position ledger (src/bot/risk_manager.py): a map
 * from symbol to {size, entry price, OCO order-list id}, a cap on the number
 * of concurrently open positions, and the bracket-price arithmetic used when
 * a position is opened.
 */
module BotRiskManager {
  import opened Wrappers

  /** One symbol's record; a size of 0 means flat. */
  datatype Position = Position(size: real, entryPrice: real, ocoListId: Option<string>)

  /** The record every symbol starts with and returns to on close. */
  const Flat: Position := Position(0.0, 0.0, None)

  /** The symbols whose record counts as open: size strictly positive. */
  function OpenSymbols(positions: map<string, Position>): set<string>
  {
    set s | s in positions && positions[s].size > 0.0
  }

  /** `get_open_positions_count` on a ledger. */
  function OpenCount(positions: map<string, Position>): nat
  {
    |OpenSymbols(positions)|
  }

  /** The ledger built at construction: every listed symbol flat, nothing else. */
  function FlatLedger(symbols: seq<string>): (m: map<string, Position>)
    ensures m.Keys == set s | s in symbols
    ensures forall s :: s in m ==> m[s] == Flat
    ensures OpenSymbols(m) == {}
  {
    map s | s in symbols :: Flat
  }

  /** Opening a flat symbol with a positive size adds exactly that symbol to the open set. */
  lemma OpenFlatAddsOne(m: map<string, Position>, s: string, p: Position)
    requires s in m && m[s].size <= 0.0 && p.size > 0.0
    ensures OpenSymbols(m[s := p]) == OpenSymbols(m) + {s}
    ensures OpenCount(m[s := p]) == OpenCount(m) + 1
  {
    assert s !in OpenSymbols(m);
    assert OpenSymbols(m[s := p]) == OpenSymbols(m) + {s};
  }

  /** Writing any record for s leaves every other symbol's open status alone. */
  lemma WriteKeepsOthers(m: map<string, Position>, s: string, p: Position)
    ensures OpenSymbols(m[s := p]) - {s} == OpenSymbols(m) - {s}
  {
  }

  /** Resetting a symbol to flat removes it from the open set and nothing else. */
  lemma {:induction false} ResetRemovesOne(m: map<string, Position>, s: string)
    ensures OpenSymbols(m[s := Flat]) == OpenSymbols(m) - {s}
    ensures OpenCount(m[s := Flat]) == if s in OpenSymbols(m) then OpenCount(m) - 1 else OpenCount(m)
  {
    var before, after := OpenSymbols(m), OpenSymbols(m[s := Flat]);
    assert after == before - {s};
    if s in before {
      assert |before - {s}| == |before| - 1;
    } else {
      assert before - {s} == before;
    }
  }

  class RiskManager {
    const usdtPerTrade: real
    const stopLossPct: real
    const takeProfitPct: real
    const maxOpenTrades: int
    var positions: map<string, Position>

    /** Defaults in the source: 100 USDT per trade, 3% stop, 6% target, 3 open trades. */
    constructor (symbols: seq<string>, usdtPerTrade: real, stopLossPct: real, takeProfitPct: real, maxOpenTrades: int)
      ensures this.usdtPerTrade == usdtPerTrade && this.stopLossPct == stopLossPct
      ensures this.takeProfitPct == takeProfitPct && this.maxOpenTrades == maxOpenTrades
      ensures positions.Keys == set s | s in symbols
      ensures forall s :: s in positions ==> positions[s] == Flat
      ensures GetOpenPositionsCount() == 0
    {
      this.usdtPerTrade := usdtPerTrade;
      this.stopLossPct := stopLossPct;
      this.takeProfitPct := takeProfitPct;
      this.maxOpenTrades := maxOpenTrades;
      positions := FlatLedger(symbols);
    }

    function GetOpenPositionsCount(): nat
      reads this
    {
      OpenCount(positions)
    }

    /** True exactly when fewer positions than the cap are open (strict). */
    function CanOpenNewPosition(): (b: bool)
      reads this
      ensures b <==> |set s | s in positions && positions[s].size > 0.0| < maxOpenTrades
      ensures !b ==> |OpenSymbols(positions)| >= maxOpenTrades
    {
      GetOpenPositionsCount() < maxOpenTrades
    }

    /** Reading an unregistered symbol is a KeyError in the source: None here. */
    function GetPositionSize(symbol: string): (r: Option<real>)
      reads this
      ensures r.Some? <==> symbol in positions
      ensures r.Some? ==> r.value == positions[symbol].size
    {
      if symbol in positions then Some(positions[symbol].size) else None
    }

    function GetEntryPrice(symbol: string): (r: Option<real>)
      reads this
      ensures r.Some? <==> symbol in positions
      ensures r.Some? ==> r.value == positions[symbol].entryPrice
    {
      if symbol in positions then Some(positions[symbol].entryPrice) else None
    }

    function GetOpenOrderId(symbol: string): (r: Option<Option<string>>)
      reads this
      ensures r.Some? <==> symbol in positions
      ensures r.Some? ==> r.value == positions[symbol].ocoListId
    {
      if symbol in positions then Some(positions[symbol].ocoListId) else None
    }

    /** The quantity that spends exactly `usdtPerTrade` at `currentPrice`. */
    function CalculateTradeSize(currentPrice: real): (size: real)
      requires currentPrice != 0.0
      ensures size * currentPrice == usdtPerTrade
      ensures currentPrice > 0.0 && usdtPerTrade > 0.0 ==> size > 0.0
    {
      usdtPerTrade / currentPrice
    }

    function GetStopLossPrice(entryPrice: real): (sl: real)
      ensures entryPrice > 0.0 && stopLossPct > 0.0 ==> sl < entryPrice
      ensures entryPrice > 0.0 && stopLossPct < 1.0 ==> sl > 0.0
      ensures entryPrice - sl == entryPrice * stopLossPct
    {
      entryPrice * (1.0 - stopLossPct)
    }

    function GetTakeProfitPrice(entryPrice: real): (tp: real)
      ensures entryPrice > 0.0 && takeProfitPct > 0.0 ==> tp > entryPrice
      ensures tp - entryPrice == entryPrice * takeProfitPct
    {
      entryPrice * (1.0 + takeProfitPct)
    }

    /**
     * Overwrites the symbol's record whatever it held before (no flatness
     * check). An unregistered symbol is a KeyError in the source: ok is
     * false and nothing changes.
     */
    method OpenPosition(symbol: string, size: real, entryPrice: real, ocoListId: Option<string>) returns (ok: bool)
      modifies this
      ensures ok <==> symbol in old(positions)
      ensures ok ==> positions == old(positions)[symbol := Position(size, entryPrice, ocoListId)]
      ensures !ok ==> positions == old(positions)
      ensures positions.Keys == old(positions).Keys
      ensures ok && old(positions)[symbol].size <= 0.0 && size > 0.0 ==>
                GetOpenPositionsCount() == old(GetOpenPositionsCount()) + 1
    {
      if symbol !in positions {
        return false;
      }
      var p := positions[symbol];
      p := p.(size := size);
      p := p.(entryPrice := entryPrice);
      p := p.(ocoListId := ocoListId);
      if old(positions)[symbol].size <= 0.0 && size > 0.0 {
        OpenFlatAddsOne(positions, symbol, p);
      }
      positions := positions[symbol := p];
      ok := true;
    }

    /**
     * Replaces the symbol's record by the flat one. Dict assignment in the
     * source, so an unregistered symbol becomes registered (and flat).
     */
    method ClosePosition(symbol: string)
      modifies this
      ensures positions == old(positions)[symbol := Flat]
      ensures OpenSymbols(positions) == OpenSymbols(old(positions)) - {symbol}
      ensures GetOpenPositionsCount() ==
                if symbol in OpenSymbols(old(positions)) then old(GetOpenPositionsCount()) - 1
                else old(GetOpenPositionsCount())
    {
      ResetRemovesOne(positions, symbol);
      positions := positions[symbol := Flat];
    }
  }

  /** A ledger client with a cap of one: open, refuse a second, close. */
  method ScenarioA()
  {
    var rm := new RiskManager(["X", "Y"], 100.0, 0.03, 0.06, 1);
    assert rm.CanOpenNewPosition();
    var ok := rm.OpenPosition("X", 10.0, 100.0, Some("r1"));
    assert ok && rm.GetPositionSize("X") == Some(10.0);
    assert rm.GetOpenPositionsCount() == 1;
    assert !rm.CanOpenNewPosition();
    assert rm.GetPositionSize("Z") == None;
    rm.ClosePosition("X");
    assert rm.GetOpenPositionsCount() == 0;
  }
}
