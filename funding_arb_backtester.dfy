/**
 * The funding-rate arbitrage backtest with the kill switch
 * (src/funding_arb_backtester.py:13-151). Rows are the aligned 8-hour
 * funding records, each already carrying its rolling APR average; the APR
 * of a row is derived from its funding rate. While in a position every row
 * accrues funding into the open trade; the trade closes when the APR drops
 * under the exit threshold, or else when the funding rate turns negative,
 * and only then does equity move. A flat row with APR and rolling average
 * both above the entry threshold opens a trade sized from the current
 * equity and a deploy share fixed once from the initial capital.
 */
module FundingArbBacktest {
  import opened Wrappers
  import Strategy
  import PositionSizer

  const RoundTripFees: real := 0.001 * 4.0
  const RoundTripSlippage: real := 0.0005 * 2.0

  /** An aligned row: the funding rate and the rolling mean of the APR column. */
  datatype Row = Row(fundingRate: real, rollingAprAvg: real)

  datatype ExitReason = AprBelowThreshold | NegativeFundingRate

  datatype Closing = Closing(exitRow: nat, netPnl: real, reason: ExitReason)

  /**
   * The `current_trade` record. The same record sits at the end of the
   * trade list while it is open, so its updates show there too.
   */
  datatype ArbTrade = ArbTrade(entryRow: nat, notionalValue: real, grossPnl: real,
                               fundingPaymentsReceived: nat, closing: Option<Closing>)

  datatype Sim = Sim(equity: real, inPosition: bool, trades: seq<ArbTrade>, equityCurve: seq<real>)

  /** What the backtest returns: the missing-parameters error, or the headline figures. */
  datatype Outcome = NoParams | Report(netProfit: real, totalTrades: nat)

  function Start(initialCapital: real): Sim
  {
    Sim(initialCapital, false, [], [])
  }

  function RowApr(row: Row): real
  {
    Strategy.Apr(row.fundingRate)
  }

  /**
   * Only the last trade may be open, and it is open exactly when the loop
   * is in a position; a recorded trade implies a recorded row.
   */
  ghost predicate Valid(s: Sim)
  {
    && (forall k :: 0 <= k < |s.trades| ==> (s.trades[k].closing.None? <==> s.inPosition && k == |s.trades| - 1))
    && (s.inPosition ==> s.trades != [])
    && (s.trades != [] ==> s.equityCurve != [])
  }

  /** One funding payment on the open trade. */
  function Accrue(t: ArbTrade, row: Row): (u: ArbTrade)
    ensures u.grossPnl - t.grossPnl == t.notionalValue * row.fundingRate
    ensures u.fundingPaymentsReceived == t.fundingPaymentsReceived + 1
    ensures u.entryRow == t.entryRow && u.notionalValue == t.notionalValue && u.closing == t.closing
  {
    t.(grossPnl := t.grossPnl + t.notionalValue * row.fundingRate,
       fundingPaymentsReceived := t.fundingPaymentsReceived + 1)
  }

  /** The exit rule: the APR test first, the kill switch only when the APR test passes. */
  function ExitReasonFor(params: Strategy.Params, row: Row): (r: Option<ExitReason>)
    ensures r == Some(AprBelowThreshold) <==> RowApr(row) < params.exitApr
    ensures r == Some(NegativeFundingRate) <==> RowApr(row) >= params.exitApr && row.fundingRate < 0.0
    ensures r == None <==> RowApr(row) >= params.exitApr && row.fundingRate >= 0.0
  {
    if RowApr(row) < params.exitApr then Some(AprBelowThreshold)
    else if row.fundingRate < 0.0 then Some(NegativeFundingRate)
    else None
  }

  /** Fees and slippage of a whole round trip, charged on exit. */
  function Costs(t: ArbTrade): real
  {
    t.notionalValue * (RoundTripFees + RoundTripSlippage)
  }

  function NetPnl(t: ArbTrade): real
  {
    t.grossPnl - Costs(t)
  }

  /** Both entry tests are strict. */
  predicate Enters(params: Strategy.Params, row: Row)
  {
    RowApr(row) > params.entryApr && row.rollingAprAvg > params.entryApr
  }

  function Front(trades: seq<ArbTrade>): seq<ArbTrade>
    requires trades != []
  {
    trades[..|trades| - 1]
  }

  function Last(trades: seq<ArbTrade>): ArbTrade
    requires trades != []
  {
    trades[|trades| - 1]
  }

  /** The in-position block: accrue, then maybe close. */
  function Hold(params: Strategy.Params, s: Sim, index: nat, row: Row): Sim
    requires Valid(s) && s.inPosition
  {
    var t := Accrue(Last(s.trades), row);
    match ExitReasonFor(params, row)
    case None => s.(trades := Front(s.trades) + [t])
    case Some(reason) =>
      Sim(s.equity + NetPnl(t), false, Front(s.trades) + [t.(closing := Some(Closing(index, NetPnl(t), reason)))], s.equityCurve)
  }

  /** The entry block: a fresh trade sized from the current equity. */
  function Enter(pct: real, leverage: real, m: Sim, index: nat): Sim
  {
    Sim(m.equity, true, m.trades + [ArbTrade(index, m.equity * pct * leverage, 0.0, 0, None)], m.equityCurve)
  }

  /** One pass of the loop body, on row number `index`. */
  function Step(params: Strategy.Params, pct: real, leverage: real, s: Sim, index: nat, row: Row): (r: Sim)
    requires Valid(s)
    ensures Valid(r)
    ensures |r.equityCurve| == |s.equityCurve| + 1 && r.equityCurve[|s.equityCurve|] == r.equity
    ensures r.equityCurve[..|s.equityCurve|] == s.equityCurve
  {
    var m := if s.inPosition then Hold(params, s, index, row) else s;
    var e := if !m.inPosition && Enters(params, row) then Enter(pct, leverage, m, index) else m;
    e.(equityCurve := e.equityCurve + [e.equity])
  }

  function Run(params: Strategy.Params, pct: real, leverage: real, s: Sim, rows: seq<Row>): (r: Sim)
    requires Valid(s)
    ensures Valid(r)
    decreases |rows|
  {
    if rows == [] then s
    else Step(params, pct, leverage, Run(params, pct, leverage, s, rows[..|rows| - 1]), |rows| - 1, rows[|rows| - 1])
  }

  /** The report: zero figures without trades, otherwise last equity less the initial capital. */
  function Summarize(initialCapital: real, s: Sim): Outcome
    requires Valid(s)
  {
    if s.trades == [] then Report(0.0, 0)
    else Report(s.equityCurve[|s.equityCurve| - 1] - initialCapital, |s.trades|)
  }

  /**
   * `run_funding_arb_backtest` on already-loaded rows. The open trade is
   * kept in `currentTrade` and written back to the end of the trade list
   * after every change, as the shared dictionary does.
   */
  method RunFundingArbBacktest(symbol: string, optimalParams: map<string, Strategy.Params>,
                               initialCapital: real, leverage: real, rows: seq<Row>)
    returns (r: Outcome)
    ensures symbol !in optimalParams ==> r == NoParams
    ensures symbol in optimalParams ==>
              r == Summarize(initialCapital, Run(optimalParams[symbol], PositionSizer.DeployPct(initialCapital), leverage,
                                                 Start(initialCapital), rows))
  {
    if symbol !in optimalParams {
      return NoParams;
    }
    var params := optimalParams[symbol];
    var capitalToDeployPct := PositionSizer.DeployPct(initialCapital);
    var equity := initialCapital;
    var equityCurve: seq<real> := [];
    var trades: seq<ArbTrade> := [];
    var inPosition := false;
    for i := 0 to |rows|
      invariant Sim(equity, inPosition, trades, equityCurve) ==
                Run(params, capitalToDeployPct, leverage, Start(initialCapital), rows[..i])
    {
      assert rows[..i + 1][..i] == rows[..i];
      equity, inPosition, trades := ProcessRow(params, capitalToDeployPct, leverage, equity, inPosition, trades, equityCurve, i, rows[i]);
      equityCurve := equityCurve + [equity];
    }
    assert rows[..|rows|] == rows;
    if trades == [] {
      return Report(0.0, 0);
    }
    return Report(equityCurve[|equityCurve| - 1] - initialCapital, |trades|);
  }

  /**
   * The loop body up to the equity point: the open-position block, then
   * the entry block.
   */
  method ProcessRow(params: Strategy.Params, capitalToDeployPct: real, leverage: real,
                    equity0: real, inPosition0: bool, trades0: seq<ArbTrade>, equityCurve: seq<real>, i: nat, row: Row)
    returns (equity: real, inPosition: bool, trades: seq<ArbTrade>)
    requires Valid(Sim(equity0, inPosition0, trades0, equityCurve))
    ensures Sim(equity, inPosition, trades, equityCurve + [equity]) ==
            Step(params, capitalToDeployPct, leverage, Sim(equity0, inPosition0, trades0, equityCurve), i, row)
  {
    ghost var before := Sim(equity0, inPosition0, trades0, equityCurve);
    equity, inPosition, trades := equity0, inPosition0, trades0;
    if inPosition {
      var currentTrade := Accrue(trades[|trades| - 1], row);
      trades := trades[..|trades| - 1] + [currentTrade];
      var reason := ExitReasonFor(params, row);
      if reason.Some? {
        var netPnl := currentTrade.grossPnl - Costs(currentTrade);
        equity := equity + netPnl;
        assert trades[..|trades| - 1] == Front(trades0);
        trades := trades[..|trades| - 1] + [currentTrade.(closing := Some(Closing(i, netPnl, reason.value)))];
        inPosition := false;
      }
    }
    ghost var held := Sim(equity, inPosition, trades, equityCurve);
    assert held == (if before.inPosition then Hold(params, before, i, row) else before);
    if !inPosition && RowApr(row) > params.entryApr && row.rollingAprAvg > params.entryApr {
      var notionalValue := equity * capitalToDeployPct * leverage;
      trades := trades + [ArbTrade(i, notionalValue, 0.0, 0, None)];
      inPosition := true;
      ghost var e := Enter(capitalToDeployPct, leverage, held, i);
      assert e.trades[|held.trades|] == trades[|held.trades|];
      assert forall k :: 0 <= k < |trades| ==> e.trades[k] == trades[k];
      assert Sim(equity, inPosition, trades, equityCurve) == Enter(capitalToDeployPct, leverage, held, i);
    }
    assert Sim(equity, inPosition, trades, equityCurve) ==
           (if !held.inPosition && Enters(params, row) then Enter(capitalToDeployPct, leverage, held, i) else held);
  }

  // ---- properties ----------------------------------------------------

  /**
   * Equity moves only on a row that closes the trade, by that trade's
   * funding less the round-trip costs.
   */
  lemma StepEquity(params: Strategy.Params, pct: real, leverage: real, s: Sim, index: nat, row: Row)
    requires Valid(s)
    ensures var r := Step(params, pct, leverage, s, index, row);
            && (!s.inPosition || ExitReasonFor(params, row).None? ==> r.equity == s.equity)
            && (s.inPosition && ExitReasonFor(params, row).Some? ==>
                  r.equity == s.equity + Last(s.trades).grossPnl + Last(s.trades).notionalValue * row.fundingRate
                                       - Last(s.trades).notionalValue * 0.005)
  {
  }

  /**
   * A held row that does not exit adds one funding payment to the open
   * trade and leaves everything else of the ledger alone.
   */
  lemma StepAccrues(params: Strategy.Params, pct: real, leverage: real, s: Sim, index: nat, row: Row)
    requires Valid(s) && s.inPosition && ExitReasonFor(params, row).None?
    ensures var r := Step(params, pct, leverage, s, index, row);
            && r.inPosition && |r.trades| == |s.trades| && Front(r.trades) == Front(s.trades)
            && Last(r.trades) == Accrue(Last(s.trades), row)
  {
  }

  /**
   * A trade is appended exactly when the row finds the loop flat (possibly
   * just after closing) and passes both entry tests; its notional is the
   * equity at that moment times the deploy share and the leverage.
   */
  lemma StepEntry(params: Strategy.Params, pct: real, leverage: real, s: Sim, index: nat, row: Row)
    requires Valid(s)
    ensures var r := Step(params, pct, leverage, s, index, row);
            var flat := !s.inPosition || ExitReasonFor(params, row).Some?;
            && (|r.trades| == |s.trades| + 1 <==> flat && Enters(params, row))
            && (|r.trades| == |s.trades| <==> !(flat && Enters(params, row)))
            && (flat && Enters(params, row) ==>
                  Last(r.trades) == ArbTrade(index, r.equity * pct * leverage, 0.0, 0, None) && r.inPosition)
  {
  }

  /** With an entry threshold under the exit threshold, a trade can close and reopen on the same row. */
  lemma ReentryOnExitRow()
    ensures var params := Strategy.Params(5.0, 20.0, 3);
            var s := Sim(100.0, true, [ArbTrade(0, 60.0, 0.0, 0, None)], [100.0]);
            var r := Step(params, 0.6, 1.0, s, 1, Row(0.0001, 12.0));
            && |r.trades| == 2 && r.trades[0].closing.Some? && r.trades[0].closing.value.reason == AprBelowThreshold
            && r.inPosition && r.trades[1].entryRow == 1
  {
    var params := Strategy.Params(5.0, 20.0, 3);
    var s := Sim(100.0, true, [ArbTrade(0, 60.0, 0.0, 0, None)], [100.0]);
    assert Valid(s);
    assert RowApr(Row(0.0001, 12.0)) == 10.95;
  }

  function Entries(params: Strategy.Params, s: Sim, rows: seq<Row>): nat
    requires Valid(s)
    decreases |rows|
  {
    if rows == [] then 0
    else
      var n := |rows| - 1;
      var before := Run(params, 0.0, 0.0, s, rows[..n]);
      Entries(params, s, rows[..n]) +
      (if (!before.inPosition || ExitReasonFor(params, rows[n]).Some?) && Enters(params, rows[n]) then 1 else 0)
  }

  /** Whether a row enters does not depend on the sizing. */
  lemma {:induction false} PositionIndependentOfSizing(params: Strategy.Params, pct: real, leverage: real, s: Sim, rows: seq<Row>)
    requires Valid(s)
    ensures Run(params, pct, leverage, s, rows).inPosition == Run(params, 0.0, 0.0, s, rows).inPosition
    ensures |Run(params, pct, leverage, s, rows).trades| == |Run(params, 0.0, 0.0, s, rows).trades|
    decreases |rows|
  {
    if rows != [] {
      PositionIndependentOfSizing(params, pct, leverage, s, rows[..|rows| - 1]);
      var a := Run(params, pct, leverage, s, rows[..|rows| - 1]);
      var b := Run(params, 0.0, 0.0, s, rows[..|rows| - 1]);
      StepEntry(params, pct, leverage, a, |rows| - 1, rows[|rows| - 1]);
      StepEntry(params, 0.0, 0.0, b, |rows| - 1, rows[|rows| - 1]);
    }
  }

  /**
   * One equity point per row, and the reported trade count is the number
   * of rows that opened a trade.
   */
  lemma {:induction false} RunCounts(params: Strategy.Params, pct: real, leverage: real, s: Sim, rows: seq<Row>)
    requires Valid(s)
    ensures |Run(params, pct, leverage, s, rows).equityCurve| == |s.equityCurve| + |rows|
    ensures |Run(params, pct, leverage, s, rows).trades| == |s.trades| + Entries(params, s, rows)
    decreases |rows|
  {
    if rows != [] {
      var n := |rows| - 1;
      RunCounts(params, pct, leverage, s, rows[..n]);
      PositionIndependentOfSizing(params, pct, leverage, s, rows[..n]);
      StepEntry(params, pct, leverage, Run(params, pct, leverage, s, rows[..n]), n, rows[n]);
    }
  }

  /**
   * Without any trade, equity never moves: every recorded point is the
   * initial capital, so the early zero report agrees with the general
   * formula.
   */
  lemma {:induction false} NoTradesNoProfit(params: Strategy.Params, pct: real, leverage: real, capital: real, rows: seq<Row>)
    requires Run(params, pct, leverage, Start(capital), rows).trades == []
    ensures var r := Run(params, pct, leverage, Start(capital), rows);
            && r.equity == capital && !r.inPosition
            && forall k :: 0 <= k < |r.equityCurve| ==> r.equityCurve[k] == capital
    decreases |rows|
  {
    if rows != [] {
      var n := |rows| - 1;
      var before := Run(params, pct, leverage, Start(capital), rows[..n]);
      assert before.trades == [] by {
        StepEntry(params, pct, leverage, before, n, rows[n]);
      }
      NoTradesNoProfit(params, pct, leverage, capital, rows[..n]);
    }
  }

  /** The no-trade report is what the general formula gives. */
  lemma ZeroReportAgrees(params: Strategy.Params, pct: real, leverage: real, capital: real, rows: seq<Row>)
    requires rows != []
    requires Run(params, pct, leverage, Start(capital), rows).trades == []
    ensures var r := Run(params, pct, leverage, Start(capital), rows);
            Summarize(capital, r) == Report(r.equityCurve[|r.equityCurve| - 1] - capital, |r.trades|)
  {
    NoTradesNoProfit(params, pct, leverage, capital, rows);
    RunCounts(params, pct, leverage, Start(capital), rows);
  }
}
