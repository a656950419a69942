/**
 * The research variant of the funding-rate arbitrage backtest
 * (src/research/funding_arb_backtester.py:9-108). Funding is credited to
 * equity row by row while in a position and the equity point is taken
 * right after; only then may the position close (APR under the exit
 * threshold and held for at least the minimum number of periods) and a
 * new one open. Each leg of the round trip pays half of the fees and
 * slippage on the notional.
 */
module ResearchFundingArbBacktest {
  import opened Wrappers
  import Strategy

  const RoundTripFees: real := 0.001 * 4.0
  const RoundTripSlippage: real := 0.0005 * 2.0

  /** The share of the notional charged on entry and again on exit. */
  const HalfCost: real := RoundTripFees / 2.0 + RoundTripSlippage / 2.0

  /** The keyword arguments of the backtest that shape the simulation. */
  datatype Config = Config(entryAprThreshold: real, exitAprThreshold: real, leverage: real, minHoldingPeriods: nat)

  const DefaultConfig: Config := Config(10.0, 5.0, 1.0, 3)

  datatype Row = Row(fundingRate: real, rollingAprAvg: real)

  datatype TradeExit = TradeExit(exitRow: nat, pnl: real)

  datatype ResearchTrade = ResearchTrade(entryRow: nat, entryEquity: real, exit: Option<TradeExit>)

  datatype Sim = Sim(equity: real, inPosition: bool, positionNotionalValue: real, tradeAge: nat,
                     trades: seq<ResearchTrade>, equityCurve: seq<real>)

  function Start(initialCapital: real): Sim
  {
    Sim(initialCapital, false, 0.0, 0, [], [])
  }

  function RowApr(row: Row): real
  {
    Strategy.Apr(row.fundingRate)
  }

  /**
   * Only the last trade may be open, exactly while in a position; a flat
   * loop has no notional and no age.
   */
  ghost predicate Valid(s: Sim)
  {
    && (forall k :: 0 <= k < |s.trades| ==> (s.trades[k].exit.None? <==> s.inPosition && k == |s.trades| - 1))
    && (s.inPosition ==> s.trades != [])
    && (!s.inPosition ==> s.positionNotionalValue == 0.0 && s.tradeAge == 0)
    && (s.trades != [] ==> s.equityCurve != [])
  }

  /** Funding for the row: the age grows by one and equity takes the payment. */
  function Accrue(s: Sim, row: Row): Sim
  {
    if s.inPosition then s.(tradeAge := s.tradeAge + 1, equity := s.equity + s.positionNotionalValue * row.fundingRate)
    else s
  }

  predicate Exits(cfg: Config, s: Sim, row: Row)
  {
    s.inPosition && RowApr(row) < cfg.exitAprThreshold && s.tradeAge >= cfg.minHoldingPeriods
  }

  predicate Enters(cfg: Config, row: Row)
  {
    RowApr(row) > cfg.entryAprThreshold && row.rollingAprAvg > cfg.entryAprThreshold
  }

  /** The exit block: pay the exit half, book the trade's pnl, reset the position. */
  function Close(s: Sim, index: nat): Sim
    requires s.trades != []
  {
    var equity := s.equity - s.positionNotionalValue * HalfCost;
    var last := s.trades[|s.trades| - 1];
    s.(equity := equity,
       trades := s.trades[..|s.trades| - 1] + [last.(exit := Some(TradeExit(index, equity - last.entryEquity)))],
       inPosition := false, positionNotionalValue := 0.0, tradeAge := 0)
  }

  /** The entry block: size from the pre-cost equity, pay the entry half, remember the post-cost equity. */
  function Open(cfg: Config, s: Sim, index: nat): Sim
  {
    var notional := s.equity * cfg.leverage;
    var equity := s.equity - notional * HalfCost;
    s.(positionNotionalValue := notional, equity := equity,
       trades := s.trades + [ResearchTrade(index, equity, None)],
       inPosition := true, tradeAge := 0)
  }

  function Step(cfg: Config, s: Sim, index: nat, row: Row): (r: Sim)
    requires Valid(s)
    ensures Valid(r)
    ensures |r.equityCurve| == |s.equityCurve| + 1
  {
    var a := Accrue(s, row);
    var c := a.(equityCurve := a.equityCurve + [a.equity]);
    var x := if Exits(cfg, c, row) then Close(c, index) else c;
    if !x.inPosition && Enters(cfg, row) then Open(cfg, x, index) else x
  }

  function Run(cfg: Config, s: Sim, rows: seq<Row>): (r: Sim)
    requires Valid(s)
    ensures Valid(r)
    ensures |r.equityCurve| == |s.equityCurve| + |rows|
    decreases |rows|
  {
    if rows == [] then s
    else Step(cfg, Run(cfg, s, rows[..|rows| - 1]), |rows| - 1, rows[|rows| - 1])
  }

  datatype Report = Report(netProfit: real, totalTrades: nat)

  function Summarize(initialCapital: real, s: Sim): Report
    requires Valid(s)
  {
    if s.trades == [] then Report(0.0, 0)
    else Report(s.equityCurve[|s.equityCurve| - 1] - initialCapital, |s.trades|)
  }

  /** `run_funding_arb_backtest` on already-loaded rows. */
  method RunFundingArbBacktest(cfg: Config, initialCapital: real, rows: seq<Row>) returns (report: Report)
    ensures report == Summarize(initialCapital, Run(cfg, Start(initialCapital), rows))
  {
    var equity := initialCapital;
    var equityCurve: seq<real> := [];
    var trades: seq<ResearchTrade> := [];
    var inPosition := false;
    var positionNotionalValue := 0.0;
    var tradeAge: nat := 0;
    for i := 0 to |rows|
      invariant Sim(equity, inPosition, positionNotionalValue, tradeAge, trades, equityCurve) ==
                Run(cfg, Start(initialCapital), rows[..i])
    {
      assert rows[..i + 1][..i] == rows[..i];
      equity, inPosition, positionNotionalValue, tradeAge, trades, equityCurve :=
        ProcessRow(cfg, equity, inPosition, positionNotionalValue, tradeAge, trades, equityCurve, i, rows[i]);
    }
    assert rows[..|rows|] == rows;
    if trades == [] {
      return Report(0.0, 0);
    }
    return Report(equityCurve[|equityCurve| - 1] - initialCapital, |trades|);
  }

  /** The loop body: funding, the equity point, the exit block, the entry block. */
  method ProcessRow(cfg: Config, equity0: real, inPosition0: bool, notional0: real, tradeAge0: nat,
                    trades0: seq<ResearchTrade>, equityCurve0: seq<real>, i: nat, row: Row)
    returns (equity: real, inPosition: bool, positionNotionalValue: real, tradeAge: nat,
             trades: seq<ResearchTrade>, equityCurve: seq<real>)
    requires Valid(Sim(equity0, inPosition0, notional0, tradeAge0, trades0, equityCurve0))
    ensures Sim(equity, inPosition, positionNotionalValue, tradeAge, trades, equityCurve) ==
            Step(cfg, Sim(equity0, inPosition0, notional0, tradeAge0, trades0, equityCurve0), i, row)
  {
    ghost var before := Sim(equity0, inPosition0, notional0, tradeAge0, trades0, equityCurve0);
    equity, inPosition, positionNotionalValue, tradeAge, trades, equityCurve :=
      equity0, inPosition0, notional0, tradeAge0, trades0, equityCurve0;
    if inPosition {
      tradeAge := tradeAge + 1;
      var fundingPnl := positionNotionalValue * row.fundingRate;
      equity := equity + fundingPnl;
    }
    ghost var accrued := Sim(equity, inPosition, positionNotionalValue, tradeAge, trades, equityCurve);
    assert accrued == Accrue(before, row);
    equityCurve := equityCurve + [equity];
    ghost var recorded := Sim(equity, inPosition, positionNotionalValue, tradeAge, trades, equityCurve);
    assert recorded == accrued.(equityCurve := accrued.equityCurve + [accrued.equity]);

    if inPosition && RowApr(row) < cfg.exitAprThreshold && tradeAge >= cfg.minHoldingPeriods {
      var exitCost := positionNotionalValue * HalfCost;
      equity := equity - exitCost;
      var tradePnl := equity - trades[|trades| - 1].entryEquity;
      trades := trades[..|trades| - 1] + [trades[|trades| - 1].(exit := Some(TradeExit(i, tradePnl)))];
      inPosition, positionNotionalValue, tradeAge := false, 0.0, 0;
      assert Sim(equity, inPosition, positionNotionalValue, tradeAge, trades, equityCurve) == Close(recorded, i);
    }
    ghost var exited := Sim(equity, inPosition, positionNotionalValue, tradeAge, trades, equityCurve);
    assert exited == if Exits(cfg, recorded, row) then Close(recorded, i) else recorded;

    if !inPosition && RowApr(row) > cfg.entryAprThreshold && row.rollingAprAvg > cfg.entryAprThreshold {
      positionNotionalValue := equity * cfg.leverage;
      var entryCost := positionNotionalValue * HalfCost;
      equity := equity - entryCost;
      trades := trades + [ResearchTrade(i, equity, None)];
      inPosition, tradeAge := true, 0;
      ghost var o := Open(cfg, exited, i);
      assert o.trades[|exited.trades|] == trades[|exited.trades|];
      assert forall k :: 0 <= k < |trades| ==> o.trades[k] == trades[k];
      assert Sim(equity, inPosition, positionNotionalValue, tradeAge, trades, equityCurve) == o;
    }
  }

  // ---- properties ----------------------------------------------------

  /**
   * The row's equity point is taken after the funding payment and before
   * any exit or entry cost.
   */
  lemma EquityPointBeforeCosts(cfg: Config, s: Sim, index: nat, row: Row)
    requires Valid(s)
    ensures var r := Step(cfg, s, index, row);
            r.equityCurve == s.equityCurve + [s.equity + (if s.inPosition then s.positionNotionalValue * row.fundingRate else 0.0)]
  {
    var a := Accrue(s, row);
    var c := a.(equityCurve := a.equityCurve + [a.equity]);
    var x := if Exits(cfg, c, row) then Close(c, index) else c;
    assert a.equity == s.equity + (if s.inPosition then s.positionNotionalValue * row.fundingRate else 0.0);
    assert x.equityCurve == c.equityCurve;
    assert Step(cfg, s, index, row).equityCurve == x.equityCurve;
  }

  /** While the trade is younger than the minimum holding period it is kept, whatever the APR. */
  lemma MinimumHolding(cfg: Config, s: Sim, index: nat, row: Row)
    requires Valid(s) && s.inPosition && s.tradeAge + 1 < cfg.minHoldingPeriods
    ensures var r := Step(cfg, s, index, row);
            && r.inPosition && r.tradeAge == s.tradeAge + 1 && |r.trades| == |s.trades|
            && r.positionNotionalValue == s.positionNotionalValue
            && r.equity == s.equity + s.positionNotionalValue * row.fundingRate
  {
  }

  /**
   * A closed trade's pnl is everything equity gained since its entry
   * (already net of the entry half), less the exit half.
   */
  lemma ExitPnl(cfg: Config, s: Sim, index: nat, row: Row)
    requires Valid(s) && s.inPosition
    requires RowApr(row) < cfg.exitAprThreshold && s.tradeAge + 1 >= cfg.minHoldingPeriods
    ensures var r := Step(cfg, s, index, row);
            var k := |s.trades| - 1;
            var n := s.positionNotionalValue;
            var closed := s.equity + n * row.fundingRate - n * HalfCost;
            && r.trades[k].exit == Some(TradeExit(index, closed - s.trades[k].entryEquity))
            && r.trades[k].entryEquity == s.trades[k].entryEquity
            // Without a new entry on the same row the position resets.
            && (!Enters(cfg, row) ==>
                  !r.inPosition && r.positionNotionalValue == 0.0 && r.tradeAge == 0
                  && r.equity == closed && |r.trades| == |s.trades|)
            // Otherwise a new trade opens on this row, sized from the post-exit equity.
            && (Enters(cfg, row) ==>
                  r.inPosition && r.tradeAge == 0 && |r.trades| == |s.trades| + 1
                  && r.positionNotionalValue == closed * cfg.leverage
                  && r.trades[k + 1].entryRow == index && r.trades[k + 1].exit.None?)
  {
    var a := Accrue(s, row);
    var c := a.(equityCurve := a.equityCurve + [a.equity]);
    assert Exits(cfg, c, row);
    var x := Close(c, index);
    var k := |s.trades| - 1;
    assert x.trades[k] == s.trades[k].(exit := Some(TradeExit(index, x.equity - s.trades[k].entryEquity)));
    var r := Step(cfg, s, index, row);
    assert r == if Enters(cfg, row) then Open(cfg, x, index) else x;
    assert r.trades[k] == x.trades[k];
    assert x.equity == s.equity + s.positionNotionalValue * row.fundingRate - s.positionNotionalValue * HalfCost;
  }

  /**
   * An entry sizes the notional from the equity before its cost, records
   * the equity after it, and starts the age at zero.
   */
  lemma EntryBookkeeping(cfg: Config, s: Sim, index: nat, row: Row)
    requires Valid(s) && !s.inPosition && Enters(cfg, row)
    ensures var r := Step(cfg, s, index, row);
            && r.inPosition && r.tradeAge == 0
            && r.positionNotionalValue == s.equity * cfg.leverage
            && r.equity == s.equity - s.equity * cfg.leverage * 0.0025
            && r.trades == s.trades + [ResearchTrade(index, r.equity, None)]
  {
  }

  /**
   * Over a stretch of rows that neither exits nor enters, equity grows by
   * the notional times the sum of the funding rates.
   */
  function SumRates(rows: seq<Row>): real
    decreases |rows|
  {
    if rows == [] then 0.0 else SumRates(rows[..|rows| - 1]) + rows[|rows| - 1].fundingRate
  }

  predicate NeverExits(cfg: Config, rows: seq<Row>)
  {
    forall k :: 0 <= k < |rows| ==> RowApr(rows[k]) >= cfg.exitAprThreshold
  }

  lemma {:induction false} HeldStretch(cfg: Config, s: Sim, rows: seq<Row>)
    requires Valid(s) && s.inPosition && NeverExits(cfg, rows)
    ensures var r := Run(cfg, s, rows);
            && r.inPosition && r.trades == s.trades
            && r.positionNotionalValue == s.positionNotionalValue
            && r.tradeAge == s.tradeAge + |rows|
            && r.equity == s.equity + s.positionNotionalValue * SumRates(rows)
    decreases |rows|
  {
    if rows != [] {
      var n := |rows| - 1;
      assert NeverExits(cfg, rows[..n]) by {
        assert forall k :: 0 <= k < n ==> rows[..n][k] == rows[k];
      }
      HeldStretch(cfg, s, rows[..n]);
      assert RowApr(rows[n]) >= cfg.exitAprThreshold;
    }
  }
}
