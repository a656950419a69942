/**
 * The ETH/BTC pairs-trading backtest (src/pairs_backtester.py:31-126).
 * A LONG pair buys A and sells B, a SHORT pair the reverse, each leg worth
 * a fixed trade value. A position is stopped out when the z-score runs
 * past 3.5 against it, otherwise closed when the z-score crosses back to
 * the mean; a flat, cointegrated row opens a pair when the z-score is
 * beyond 2 either way. The z-score and the cointegration verdict come
 * with each row.
 */
module PairsBacktest {
  import opened Wrappers

  const EntryZScore: real := 2.0
  const ExitZScore: real := 0.0
  const StopLossZScore: real := 3.5
  const InitialCapital: real := 10000.0
  const TradeValue: real := 1000.0
  const TransactionFee: real := 0.001
  const Slippage: real := 0.0005

  datatype PairSide = Long | Short

  /** One aligned hour: both closes, the z-score of their ratio, and whether the pair is cointegrated. */
  datatype Row = Row(priceA: real, priceB: real, zScore: real, isTradeable: bool)

  predicate Priced(row: Row)
  {
    row.priceA > 0.0 && row.priceB > 0.0
  }

  /** The `open_trade` record: fill prices, leg sizes, and the net entry value. */
  datatype OpenTrade = OpenTrade(priceA: real, priceB: real, sizeA: real, sizeB: real, initialValue: real)

  /** The leg bought pays slippage up, the leg sold receives slippage down. */
  function OpenPosition(side: PairSide, row: Row): OpenTrade
    requires Priced(row)
  {
    var priceA := if side == Long then row.priceA * (1.0 + Slippage) else row.priceA * (1.0 - Slippage);
    var priceB := if side == Long then row.priceB * (1.0 - Slippage) else row.priceB * (1.0 + Slippage);
    var sizeA := TradeValue / priceA;
    var sizeB := TradeValue / priceB;
    var costA := sizeA * priceA * (1.0 + TransactionFee);
    var costB := sizeB * priceB * (1.0 + TransactionFee);
    OpenTrade(priceA, priceB, sizeA, sizeB, if side == Long then costA - costB else costB - costA)
  }

  /** Each leg is worth exactly the trade value at its fill, so the two legs' costs cancel. */
  lemma OpenPositionLegs(side: PairSide, row: Row)
    requires Priced(row)
    ensures var t := OpenPosition(side, row);
            && t.sizeA * t.priceA == TradeValue && t.sizeB * t.priceB == TradeValue
            && t.initialValue == 0.0
            && (side == Long ==> t.priceA > row.priceA && t.priceB < row.priceB)
            && (side == Short ==> t.priceA < row.priceA && t.priceB > row.priceB)
  {
  }

  /** Closing reverses the slippage and pays the fee on the exit value of each leg. */
  function ClosePosition(side: PairSide, row: Row, t: OpenTrade): real
  {
    var priceA := if side == Long then row.priceA * (1.0 - Slippage) else row.priceA * (1.0 + Slippage);
    var priceB := if side == Long then row.priceB * (1.0 + Slippage) else row.priceB * (1.0 - Slippage);
    var valueA := t.sizeA * priceA * (1.0 - TransactionFee);
    var valueB := t.sizeB * priceB * (1.0 - TransactionFee);
    if side == Long then (valueA - t.sizeA * t.priceA) + (t.sizeB * t.priceB - valueB)
    else (t.sizeA * t.priceA - valueA) + (valueB - t.sizeB * t.priceB)
  }

  /** The mark-to-market value of the open pair at the row's closes, without costs. */
  function UnrealizedPnl(side: PairSide, row: Row, t: OpenTrade): real
  {
    var currentValueA := t.sizeA * row.priceA;
    var currentValueB := t.sizeB * row.priceB;
    var initialValueA := t.sizeA * t.priceA;
    var initialValueB := t.sizeB * t.priceB;
    if side == Long then (currentValueA - initialValueA) + (initialValueB - currentValueB)
    else (initialValueA - currentValueA) + (currentValueB - initialValueB)
  }

  /** At the recorded fill prices the pair is worth nothing, and SHORT is LONG with the sign flipped. */
  lemma UnrealizedPnlSymmetry(row: Row, t: OpenTrade)
    ensures UnrealizedPnl(Short, row, t) == -UnrealizedPnl(Long, row, t)
    ensures row.priceA == t.priceA && row.priceB == t.priceB ==>
              UnrealizedPnl(Long, row, t) == 0.0 && UnrealizedPnl(Short, row, t) == 0.0
  {
  }

  /** Opening and closing on the same prices loses money: slippage and fees are paid both ways. */
  lemma RoundTripAtSamePricesLoses(side: PairSide, row: Row)
    requires Priced(row)
    ensures ClosePosition(side, row, OpenPosition(side, row)) < 0.0
  {
    var t := OpenPosition(side, row);
    OpenPositionLegs(side, row);
    var up := 1.0 + Slippage;
    var down := 1.0 - Slippage;
    var keep := 1.0 - TransactionFee;
    if side == Long {
      assert t.sizeA * row.priceA * up == TradeValue;
      assert t.sizeB * row.priceB * down == TradeValue;
      // Each close leg is the entry leg's value scaled by down/up (A) or up/down (B), less the fee.
      assert t.sizeA * (row.priceA * down) * keep == TradeValue * down * keep / up;
      assert t.sizeB * (row.priceB * up) * keep == TradeValue * up * keep / down;
    } else {
      assert t.sizeA * row.priceA * down == TradeValue;
      assert t.sizeB * row.priceB * up == TradeValue;
      assert t.sizeA * (row.priceA * up) * keep == TradeValue * up * keep / down;
      assert t.sizeB * (row.priceB * down) * keep == TradeValue * down * keep / up;
    }
  }

  datatype ExitKind = StopLoss | TakeProfit

  /** The exit test: the stop (z-score past 3.5 against the pair) before the reversion to the mean. */
  function ExitFor(side: PairSide, z: real): (e: Option<ExitKind>)
    ensures e == Some(StopLoss) <==> (side == Long && z < -StopLossZScore) || (side == Short && z > StopLossZScore)
    ensures side == Long ==> (e.None? <==> -StopLossZScore <= z && z < ExitZScore)
    ensures side == Short ==> (e.None? <==> ExitZScore < z && z <= StopLossZScore)
  {
    if (side == Long && z < -StopLossZScore) || (side == Short && z > StopLossZScore) then Some(StopLoss)
    else if (side == Long && z >= ExitZScore) || (side == Short && z <= ExitZScore) then Some(TakeProfit)
    else None
  }

  /** The entry test on a flat, cointegrated row. */
  function EntryFor(row: Row): (side: Option<PairSide>)
    ensures side == Some(Long) <==> row.isTradeable && row.zScore < -EntryZScore
    ensures side == Some(Short) <==> row.isTradeable && row.zScore > EntryZScore
  {
    if !row.isTradeable then None
    else if row.zScore < -EntryZScore then Some(Long)
    else if row.zScore > EntryZScore then Some(Short)
    else None
  }

  datatype Holding = Holding(side: PairSide, trade: OpenTrade)

  datatype Sim = Sim(cash: real, position: Option<Holding>, trades: seq<real>, equity: seq<real>)

  const Start: Sim := Sim(InitialCapital, None, [], [])

  function RowEquity(cash: real, position: Option<Holding>, row: Row): real
  {
    if position.Some? then cash + UnrealizedPnl(position.value.side, row, position.value.trade) else cash
  }

  /** One row: exit check, then entry check, then the row's equity. */
  function Step(s: Sim, row: Row): Sim
    requires Priced(row)
  {
    var m :=
      if s.position.Some? && ExitFor(s.position.value.side, row.zScore).Some? then
        var pnl := ClosePosition(s.position.value.side, row, s.position.value.trade);
        Sim(s.cash + pnl, None, s.trades + [pnl], s.equity)
      else s;
    var e :=
      if m.position.None? && EntryFor(row).Some? then
        m.(position := Some(Holding(EntryFor(row).value, OpenPosition(EntryFor(row).value, row))))
      else m;
    e.(equity := e.equity + [RowEquity(e.cash, e.position, row)])
  }

  predicate AllPriced(rows: seq<Row>)
  {
    forall k :: 0 <= k < |rows| ==> Priced(rows[k])
  }

  function Run(s: Sim, rows: seq<Row>): Sim
    requires AllPriced(rows)
    decreases |rows|
  {
    if rows == [] then s
    else
      var n := |rows| - 1;
      assert Priced(rows[n]);
      Step(Run(s, rows[..n]), rows[n])
  }

  /** The simulation loop of `run_pairs_backtest`; returns cash, the open pair, closed pnls, and equity per row. */
  method RunPairsBacktest(rows: seq<Row>) returns (cash: real, position: Option<Holding>, trades: seq<real>, equity: seq<real>)
    requires AllPriced(rows)
    ensures Sim(cash, position, trades, equity) == Run(Start, rows)
  {
    cash, position, trades, equity := InitialCapital, None, [], [];
    for i := 0 to |rows|
      invariant Sim(cash, position, trades, equity) == Run(Start, rows[..i])
    {
      assert rows[..i + 1][..i] == rows[..i];
      var row := rows[i];
      assert Priced(row);
      if position.Some? {
        var side := position.value.side;
        if (side == Long && row.zScore < -StopLossZScore) || (side == Short && row.zScore > StopLossZScore) {
          var pnl := ClosePosition(side, row, position.value.trade);
          cash := cash + pnl;
          trades := trades + [pnl];
          position := None;
        } else if (side == Long && row.zScore >= ExitZScore) || (side == Short && row.zScore <= ExitZScore) {
          var pnl := ClosePosition(side, row, position.value.trade);
          cash := cash + pnl;
          trades := trades + [pnl];
          position := None;
        }
      }
      if position.None? && row.isTradeable {
        if row.zScore < -EntryZScore {
          position := Some(Holding(Long, OpenPosition(Long, row)));
        } else if row.zScore > EntryZScore {
          position := Some(Holding(Short, OpenPosition(Short, row)));
        }
      }
      if position.Some? {
        var currentPnl := UnrealizedPnl(position.value.side, row, position.value.trade);
        equity := equity + [cash + currentPnl];
      } else {
        equity := equity + [cash];
      }
    }
    assert rows[..|rows|] == rows;
  }

  // ---- the loop as written --------------------------------------------

  /**
   * The script as written binds `open_position`, `close_position` and
   * `calculate_unrealized_pnl` only after the loop, so the first row that
   * calls one of them raises. A row calls one when a pair is open (the exit
   * or the mark-to-market) or when a flat row enters.
   */
  predicate CallsHelper(s: Sim, row: Row)
  {
    s.position.Some? || EntryFor(row).Some?
  }

  datatype Outcome = RaisedAt(row: nat, s: Sim) | Finished(s: Sim)

  /** The loop as written: it stops, with the state it had, at the first row that calls a helper. */
  function RunAsWritten(rows: seq<Row>): Outcome
    requires AllPriced(rows)
    decreases |rows|
  {
    if rows == [] then Finished(Start)
    else
      var n := |rows| - 1;
      assert AllPriced(rows[..n]) by {
        assert forall k :: 0 <= k < n ==> rows[..n][k] == rows[k];
      }
      match RunAsWritten(rows[..n])
      case RaisedAt(k, s) => RaisedAt(k, s)
      case Finished(s) =>
        assert Priced(rows[n]);
        if CallsHelper(s, rows[n]) then RaisedAt(n, s) else Finished(Step(s, rows[n]))
  }

  /**
   * As written the run never trades: it stops at the first row with an
   * entry signal, still flat with its starting cash, and finishes only when
   * no row signals, in which case it agrees with the corrected `Run`.
   */
  lemma {:induction false} AsWrittenStopsAtFirstEntry(rows: seq<Row>)
    requires AllPriced(rows)
    ensures var r := RunAsWritten(rows);
            && (r.Finished? <==> forall k :: 0 <= k < |rows| ==> EntryFor(rows[k]).None?)
            && (r.Finished? ==> r.s == Run(Start, rows))
            && (r.RaisedAt? ==> r.row < |rows| && EntryFor(rows[r.row]).Some? &&
                                forall k :: 0 <= k < r.row ==> EntryFor(rows[k]).None?)
            && r.s.trades == [] && r.s.position.None? && r.s.cash == InitialCapital
    decreases |rows|
  {
    if rows != [] {
      var n := |rows| - 1;
      var prefix := rows[..n];
      assert forall k :: 0 <= k < n ==> prefix[k] == rows[k];
      assert AllPriced(prefix);
      AsWrittenStopsAtFirstEntry(prefix);
      assert rows[..n] == prefix;
    }
  }

  /**
   * The input that shows it: one cointegrated row at z = -2.5. The
   * corrected loop opens a LONG pair; as written the run stops on that row.
   */
  lemma FirstEntryRaises()
    ensures var rows := [Row(100.0, 50.0, -2.5, true)];
            && RunAsWritten(rows) == RaisedAt(0, Start)
            && Run(Start, rows).position == Some(Holding(Long, OpenPosition(Long, rows[0])))
  {
    var rows := [Row(100.0, 50.0, -2.5, true)];
    assert rows[..0] == [];
  }

  // ---- properties ----------------------------------------------------

  /**
   * The row's equity is cash plus the open pair's mark-to-market; cash
   * moves only by a closed pair's pnl, which is also logged.
   */
  lemma StepBookkeeping(s: Sim, row: Row)
    requires Priced(row)
    ensures var r := Step(s, row);
            && r.equity == s.equity + [RowEquity(r.cash, r.position, row)]
            && (s.position.Some? && ExitFor(s.position.value.side, row.zScore).Some? ==>
                  r.trades == s.trades + [ClosePosition(s.position.value.side, row, s.position.value.trade)] &&
                  r.cash == s.cash + r.trades[|s.trades|])
            && (!(s.position.Some? && ExitFor(s.position.value.side, row.zScore).Some?) ==>
                  r.trades == s.trades && r.cash == s.cash)
  {
  }

  /**
   * An open pair is kept, and nothing is logged, exactly while the z-score
   * stays between the stop and the mean; a pair closed at the mean is not
   * reopened on the same side on the same row.
   */
  lemma HoldWhileBetween(s: Sim, row: Row)
    requires Priced(row) && s.position.Some?
    ensures Step(s, row).trades == s.trades <==> ExitFor(s.position.value.side, row.zScore).None?
    ensures ExitFor(s.position.value.side, row.zScore).None? ==> Step(s, row).position == s.position
    ensures ExitFor(s.position.value.side, row.zScore) == Some(TakeProfit) ==>
              Step(s, row).position.None? || Step(s, row).position.value.side != s.position.value.side
  {
    if ExitFor(s.position.value.side, row.zScore).Some? {
      assert |Step(s, row).trades| == |s.trades| + 1;
    }
  }

  /** A stopped-out pair re-enters on the same row when the z-score still calls for it. */
  lemma StopAndReenter()
    ensures var row := Row(100.0, 50.0, -4.0, true);
            var s := Sim(10000.0, Some(Holding(Long, OpenPosition(Long, Row(110.0, 50.0, -2.5, true)))), [], []);
            var r := Step(s, row);
            && |r.trades| == 1 && r.position == Some(Holding(Long, OpenPosition(Long, row)))
  {
  }

  /** One equity value per row. */
  lemma {:induction false} EquityPerRow(s: Sim, rows: seq<Row>)
    requires AllPriced(rows)
    ensures |Run(s, rows).equity| == |s.equity| + |rows|
    ensures |Run(s, rows).trades| <= |s.trades| + |rows|
    decreases |rows|
  {
    if rows != [] {
      var n := |rows| - 1;
      assert AllPriced(rows[..n]) by {
        assert forall k :: 0 <= k < n ==> rows[..n][k] == rows[k];
      }
      EquityPerRow(s, rows[..n]);
    }
  }
}
