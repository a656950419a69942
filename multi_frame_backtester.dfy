/**
 * The multi-timeframe backtester (src/research/multi_frame_backtester.py).
 * The 1-hour rows drive the loop, each carrying the latest 4-hour and
 * 1-day indicator columns. A bar first closes the positions whose stop or
 * target it touched, then checks each timeframe for a BUY and takes at
 * most one of them: the first of 1d, 4h, 1h whose slot is free while
 * fewer than three positions are open. A random 5% skip (a per-row flag
 * here) drops that entry but not the equity point.
 *
 * Fills, the exit test and the net pnl are the same rules as the trend
 * backtester's and are shared with it.
 */
module MultiFrameBacktest {
  import opened Wrappers
  import TrendBacktest

  datatype Timeframe = D1 | H4 | H1

  /** A timeframe's entry rules and sizing. */
  datatype FrameConfig = FrameConfig(rsiEntryMax: real, stopLoss: real, takeProfit: real, positionSizePct: real)

  function Config(tf: Timeframe): FrameConfig
  {
    match tf
    case D1 => FrameConfig(70.0, 0.07, 0.20, 25.0)
    case H4 => FrameConfig(65.0, 0.04, 0.12, 15.0)
    case H1 => FrameConfig(60.0, 0.025, 0.075, 10.0)
  }

  const MaxPositionsTotal: nat := 3

  /** The order in which timeframes are offered an entry. */
  const Priority: seq<Timeframe> := [D1, H4, H1]

  /** One timeframe's columns of an aligned row. */
  datatype FrameColumns = FrameColumns(close: real, sma: real, rsi: real, volume: real, volumeSma20: real,
                                       candleExtended: bool, volatilityHigh: bool, isFomc: bool)

  /** An aligned 1-hour row: its range and ATR, the three timeframes' columns, the random skip. */
  datatype Row = Row(low: real, high: real, atr14: real, d1: FrameColumns, h4: FrameColumns, h1: FrameColumns, skipDraw: bool)

  function Columns(row: Row, tf: Timeframe): FrameColumns
  {
    match tf
    case D1 => row.d1
    case H4 => row.h4
    case H1 => row.h1
  }

  predicate WellFormed(rows: seq<Row>)
  {
    forall k :: 0 <= k < |rows| ==> rows[k].low > 0.0 && rows[k].h1.close > 0.0
  }

  /** An open position: its timeframe slot, its notional, and the fill and brackets. */
  datatype MfPosition = MfPosition(tf: Timeframe, notional: real, core: TrendBacktest.TrendPosition)

  datatype MfTrade = MfTrade(position: MfPosition, exitIndex: nat, exitPrice: real, netPnl: real,
                             reason: TrendBacktest.ExitReason)

  function Frames(open: seq<MfPosition>): set<Timeframe>
  {
    set k | 0 <= k < |open| :: open[k].tf
  }

  /** The dictionary's keys are the timeframes: at most one position each, three in all. */
  predicate Keyed(open: seq<MfPosition>)
  {
    (forall i, j :: 0 <= i < j < |open| ==> open[i].tf != open[j].tf) && |open| <= MaxPositionsTotal
  }

  datatype Signal = Buy | Sell

  /** `_check_signal`: no signal for an occupied slot or a filtered bar; otherwise BUY on trend, RSI and volume. */
  function CheckSignal(row: Row, tf: Timeframe, open: seq<MfPosition>): (s: Option<Signal>)
    ensures s != Some(Sell)
    ensures tf in Frames(open) ==> s == None
    ensures s == Some(Buy) <==>
              var c := Columns(row, tf);
              && tf !in Frames(open)
              && !c.candleExtended && !c.volatilityHigh && !c.isFomc
              && c.close > c.sma && c.rsi < Config(tf).rsiEntryMax && c.volume > c.volumeSma20
  {
    if tf in Frames(open) then None
    else
      var c := Columns(row, tf);
      if c.candleExtended || c.volatilityHigh || c.isFomc then None
      else if c.close > c.sma && c.rsi < Config(tf).rsiEntryMax then
        if c.volume > c.volumeSma20 then Some(Buy) else None
      else None
  }

  /** The signal dictionary, with the timeframes that gave no signal left out. */
  function CheckSignals(row: Row, open: seq<MfPosition>): map<Timeframe, Signal>
  {
    map tf | tf in {D1, H4, H1} && CheckSignal(row, tf, open).Some? :: CheckSignal(row, tf, open).value
  }

  predicate Takeable(signals: map<Timeframe, Signal>, open: seq<MfPosition>, tf: Timeframe)
  {
    tf in signals && signals[tf] == Buy && tf !in Frames(open) && |open| < MaxPositionsTotal
  }

  function FirstTakeable(signals: map<Timeframe, Signal>, open: seq<MfPosition>, tfs: seq<Timeframe>): seq<Timeframe>
    decreases |tfs|
  {
    if tfs == [] then []
    else if Takeable(signals, open, tfs[0]) then [tfs[0]]
    else FirstTakeable(signals, open, tfs[1..])
  }

  /** `_resolve_signals`: nothing on a daily SELL, else the first takeable timeframe in priority order. */
  function ResolveSignals(signals: map<Timeframe, Signal>, open: seq<MfPosition>): seq<Timeframe>
  {
    if D1 in signals && signals[D1] == Sell then []
    else FirstTakeable(signals, open, Priority)
  }

  lemma {:induction false} FirstTakeableSpec(signals: map<Timeframe, Signal>, open: seq<MfPosition>, tfs: seq<Timeframe>)
    ensures var take := FirstTakeable(signals, open, tfs);
            && |take| <= 1
            && (take == [] <==> forall k :: 0 <= k < |tfs| ==> !Takeable(signals, open, tfs[k]))
            && (take != [] ==> exists k :: 0 <= k < |tfs| && take[0] == tfs[k] && Takeable(signals, open, tfs[k]) &&
                                 forall j :: 0 <= j < k ==> !Takeable(signals, open, tfs[j]))
    decreases |tfs|
  {
    if tfs != [] {
      FirstTakeableSpec(signals, open, tfs[1..]);
      if !Takeable(signals, open, tfs[0]) {
        var take := FirstTakeable(signals, open, tfs);
        if take != [] {
          var k :| 0 <= k < |tfs[1..]| && take[0] == tfs[1..][k] && Takeable(signals, open, tfs[1..][k]) &&
                   forall j :: 0 <= j < k ==> !Takeable(signals, open, tfs[1..][j]);
          assert take[0] == tfs[k + 1];
          assert forall j :: 0 <= j < k + 1 ==> !Takeable(signals, open, tfs[j]) by {
            forall j | 0 <= j < k + 1
              ensures !Takeable(signals, open, tfs[j])
            {
              if j > 0 {
                assert tfs[j] == tfs[1..][j - 1];
              }
            }
          }
        }
        assert forall k :: 1 <= k < |tfs| ==> tfs[k] == tfs[1..][k - 1];
      }
    }
  }

  /**
   * A daily SELL blocks everything; otherwise the result is empty exactly
   * when no timeframe is takeable, and is otherwise the single first
   * takeable one in the order 1d, 4h, 1h.
   */
  lemma ResolveSignalsSpec(signals: map<Timeframe, Signal>, open: seq<MfPosition>)
    ensures var take := ResolveSignals(signals, open);
            && (D1 in signals && signals[D1] == Sell ==> take == [])
            && |take| <= 1
            && (!(D1 in signals && signals[D1] == Sell) ==>
                  (take == [] <==> forall tf :: !Takeable(signals, open, tf)))
            && (take != [] ==> Takeable(signals, open, take[0]) &&
                                 (take[0] == H4 ==> !Takeable(signals, open, D1)) &&
                                 (take[0] == H1 ==> !Takeable(signals, open, D1) && !Takeable(signals, open, H4)))
  {
    FirstTakeableSpec(signals, open, Priority);
    var take := ResolveSignals(signals, open);
    if take != [] {
      var k :| 0 <= k < |Priority| && take[0] == Priority[k] && Takeable(signals, open, Priority[k]) &&
               forall j :: 0 <= j < k ==> !Takeable(signals, open, Priority[j]);
      assert Priority[1] == H4 && Priority[2] == H1;
    }
    if !(D1 in signals && signals[D1] == Sell) && take == [] {
      forall tf
        ensures !Takeable(signals, open, tf)
      {
        assert tf == Priority[0] || tf == Priority[1] || tf == Priority[2];
      }
    }
  }

  /** A new position for `tf`: buy fill on the 1-hour close, sized by the timeframe's share of capital. */
  function Opened(tf: Timeframe, capital: real, index: nat, row: Row): MfPosition
    requires row.h1.close > 0.0
  {
    var cfg := Config(tf);
    var entryPrice := TrendBacktest.ExecutionPrice(row.h1.close, TrendBacktest.Buy, row.atr14 / row.h1.close);
    var positionSizeUsd := capital * (cfg.positionSizePct / 100.0);
    MfPosition(tf, positionSizeUsd,
               TrendBacktest.TrendPosition(index, entryPrice, positionSizeUsd / entryPrice,
                                           entryPrice * (1.0 - cfg.stopLoss), entryPrice * (1.0 + cfg.takeProfit)))
  }

  /** Per-timeframe sizing: the quantity is worth the timeframe's share of capital, between its stop and target. */
  lemma OpenedSizing(tf: Timeframe, capital: real, index: nat, row: Row)
    requires row.h1.close > 0.0
    ensures var p := Opened(tf, capital, index, row);
            && p.core.size * p.core.entryPrice == capital * Config(tf).positionSizePct / 100.0
            && p.notional == capital * Config(tf).positionSizePct / 100.0
            && p.core.stopLoss < p.core.entryPrice < p.core.takeProfit
  {
  }

  datatype Book = Book(capital: real, trades: seq<MfTrade>, kept: seq<MfPosition>)

  function ExitOne(index: nat, row: Row, b: Book, pos: MfPosition): Book
    requires row.low > 0.0
  {
    match TrendBacktest.ExitFor(row.low, row.high, row.atr14, pos.core)
    case None => b.(kept := b.kept + [pos])
    case Some(e) =>
      var netPnl := TrendBacktest.NetPnl(pos.core, e.price);
      Book(b.capital + netPnl, b.trades + [MfTrade(pos, index, e.price, netPnl, e.reason)], b.kept)
  }

  function ExitPass(index: nat, row: Row, b: Book, positions: seq<MfPosition>): Book
    requires row.low > 0.0
    decreases |positions|
  {
    if positions == [] then b
    else ExitOne(index, row, ExitPass(index, row, b, positions[..|positions| - 1]), positions[|positions| - 1])
  }

  /** The positions left after the exit walk, in their original order. */
  function Survivors(row: Row, positions: seq<MfPosition>): seq<MfPosition>
    requires row.low > 0.0
    decreases |positions|
  {
    if positions == [] then []
    else
      var n := |positions| - 1;
      Survivors(row, positions[..n]) + (if TrendBacktest.ExitFor(row.low, row.high, row.atr14, positions[n].core).None? then [positions[n]] else [])
  }

  lemma {:induction false} ExitPassKeepsSurvivors(index: nat, row: Row, b: Book, positions: seq<MfPosition>)
    requires row.low > 0.0
    ensures ExitPass(index, row, b, positions).kept == b.kept + Survivors(row, positions)
    decreases |positions|
  {
    if positions != [] {
      ExitPassKeepsSurvivors(index, row, b, positions[..|positions| - 1]);
    }
  }

  /** Deleting the exited keys keeps the survivors keyed: a subsequence of a keyed list is keyed. */
  lemma {:induction false} SurvivorsKeyed(row: Row, positions: seq<MfPosition>)
    requires row.low > 0.0 && Keyed(positions)
    ensures Keyed(Survivors(row, positions))
    ensures Frames(Survivors(row, positions)) <= Frames(positions)
    ensures |Survivors(row, positions)| <= |positions|
    decreases |positions|
  {
    if positions != [] {
      var n := |positions| - 1;
      var front := positions[..n];
      assert Keyed(front) by {
        assert forall i :: 0 <= i < n ==> front[i] == positions[i];
      }
      SurvivorsKeyed(row, front);
      var s := Survivors(row, front);
      assert Frames(front) <= Frames(positions) by {
        forall tf | tf in Frames(front)
          ensures tf in Frames(positions)
        {
          var k :| 0 <= k < |front| && front[k].tf == tf;
          assert positions[k].tf == tf;
        }
      }
      assert positions[n].tf !in Frames(front) by {
        forall k | 0 <= k < |front|
          ensures front[k].tf != positions[n].tf
        {
          assert front[k] == positions[k];
        }
      }
      if TrendBacktest.ExitFor(row.low, row.high, row.atr14, positions[n].core).None? {
        var t := s + [positions[n]];
        assert Frames(t) == Frames(s) + {positions[n].tf} by {
          forall tf | tf in Frames(t)
            ensures tf in Frames(s) + {positions[n].tf}
          {
            var k :| 0 <= k < |t| && t[k].tf == tf;
            if k < |s| {
              assert s[k].tf == tf;
            }
          }
          forall tf | tf in Frames(s)
            ensures tf in Frames(t)
          {
            var k :| 0 <= k < |s| && s[k].tf == tf;
            assert t[k].tf == tf;
          }
          assert t[|s|].tf == positions[n].tf;
        }
        forall i, j | 0 <= i < j < |t|
          ensures t[i].tf != t[j].tf
        {
          if j == |s| {
            assert t[i].tf in Frames(s) by {
              assert s[i].tf == t[i].tf;
            }
          } else {
            assert s[i] == t[i] && s[j] == t[j];
          }
        }
      }
    }
  }

  datatype State = State(capital: real, equityCurve: seq<real>, trades: seq<MfTrade>, openPositions: seq<MfPosition>)

  /** One aligned row: exits, at most one entry unless the random skip fires, then the equity point. */
  function Step(s: State, index: nat, row: Row): State
    requires row.low > 0.0 && row.h1.close > 0.0
  {
    var b := ExitPass(index, row, Book(s.capital, s.trades, []), s.openPositions);
    var take := ResolveSignals(CheckSignals(row, b.kept), b.kept);
    var open := if take != [] && !row.skipDraw then b.kept + [Opened(take[0], b.capital, index, row)] else b.kept;
    State(b.capital, s.equityCurve + [b.capital], b.trades, open)
  }

  function Run(s: State, rows: seq<Row>): State
    requires WellFormed(rows)
    decreases |rows|
  {
    if rows == [] then s
    else
      var n := |rows| - 1;
      assert rows[n].low > 0.0 && rows[n].h1.close > 0.0;
      Step(Run(s, rows[..n]), n, rows[n])
  }

  class MultiFrameBacktester {
    const symbol: string
    var capital: real
    var equityCurve: seq<real>
    var trades: seq<MfTrade>
    var openPositions: seq<MfPosition>

    constructor (symbol: string, startCapital: real)
      ensures this.symbol == symbol && capital == startCapital
      ensures equityCurve == [] && trades == [] && openPositions == []
    {
      this.symbol := symbol;
      capital := startCapital;
      equityCurve, trades, openPositions := [], [], [];
    }

    function Snapshot(): State
      reads this
    {
      State(capital, equityCurve, trades, openPositions)
    }

    /** The exit walk over the open positions, then the deletion of the exited keys. */
    method CloseHitPositions(index: nat, row: Row)
      requires row.low > 0.0
      modifies this`capital, this`trades, this`openPositions
      ensures Book(capital, trades, openPositions) ==
              ExitPass(index, row, Book(old(capital), old(trades), []), old(openPositions))
    {
      var positions := openPositions;
      var kept: seq<MfPosition> := [];
      for j := 0 to |positions|
        invariant Book(capital, trades, kept) == ExitPass(index, row, Book(old(capital), old(trades), []), positions[..j])
      {
        assert positions[..j + 1][..j] == positions[..j];
        var pos := positions[j];
        ghost var walked := ExitPass(index, row, Book(old(capital), old(trades), []), positions[..j]);
        assert ExitPass(index, row, Book(old(capital), old(trades), []), positions[..j + 1]) == ExitOne(index, row, walked, pos);
        var exit := TrendBacktest.ExitFor(row.low, row.high, row.atr14, pos.core);
        if exit.Some? {
          var pnl := (exit.value.price - pos.core.entryPrice) * pos.core.size;
          var totalFees := (pos.core.entryPrice * pos.core.size + exit.value.price * pos.core.size) * TrendBacktest.FeeRate;
          var netPnl := pnl - totalFees;
          assert netPnl == TrendBacktest.NetPnl(pos.core, exit.value.price);
          capital := capital + netPnl;
          trades := trades + [MfTrade(pos, index, exit.value.price, netPnl, exit.value.reason)];
        } else {
          kept := kept + [pos];
        }
      }
      assert positions[..|positions|] == positions;
      openPositions := kept;
    }

    /** `run_backtest` over the aligned rows. */
    method RunBacktest(rows: seq<Row>)
      requires WellFormed(rows)
      modifies this
      ensures Snapshot() == Run(old(Snapshot()), rows)
    {
      for i := 0 to |rows|
        invariant Snapshot() == Run(old(Snapshot()), rows[..i])
      {
        assert rows[..i + 1][..i] == rows[..i];
        var row := rows[i];
        assert row.low > 0.0 && row.h1.close > 0.0;
        ghost var before := Snapshot();
        CloseHitPositions(i, row);
        var signals := CheckSignals(row, openPositions);
        var signalsToTake := ResolveSignals(signals, openPositions);
        if signalsToTake != [] && !row.skipDraw {
          var position := Opened(signalsToTake[0], capital, i, row);
          openPositions := openPositions + [position];
        }
        equityCurve := equityCurve + [capital];
        assert Snapshot() == Step(before, i, row);
      }
      assert rows[..|rows|] == rows;
    }
  }

  // ---- properties ----------------------------------------------------

  /** After every row: at most one position per timeframe and at most three in all. */
  lemma StepKeepsKeyed(s: State, index: nat, row: Row)
    requires row.low > 0.0 && row.h1.close > 0.0
    requires Keyed(s.openPositions)
    ensures Keyed(Step(s, index, row).openPositions)
    ensures |Step(s, index, row).equityCurve| == |s.equityCurve| + 1
  {
    var b := ExitPass(index, row, Book(s.capital, s.trades, []), s.openPositions);
    ExitPassKeepsSurvivors(index, row, Book(s.capital, s.trades, []), s.openPositions);
    SurvivorsKeyed(row, s.openPositions);
    var signals := CheckSignals(row, b.kept);
    var take := ResolveSignals(signals, b.kept);
    ResolveSignalsSpec(signals, b.kept);
    if take != [] && !row.skipDraw {
      var p := Opened(take[0], b.capital, index, row);
      var open := b.kept + [p];
      assert p.tf !in Frames(b.kept);
      forall i, j | 0 <= i < j < |open|
        ensures open[i].tf != open[j].tf
      {
        if j == |b.kept| {
          assert open[i].tf in Frames(b.kept) by {
            assert b.kept[i] == open[i];
          }
        } else {
          assert b.kept[i] == open[i] && b.kept[j] == open[j];
        }
      }
    }
  }

  lemma {:induction false} RunKeepsKeyed(s: State, rows: seq<Row>)
    requires WellFormed(rows) && Keyed(s.openPositions)
    ensures Keyed(Run(s, rows).openPositions)
    ensures |Run(s, rows).equityCurve| == |s.equityCurve| + |rows|
    decreases |rows|
  {
    if rows != [] {
      var n := |rows| - 1;
      assert WellFormed(rows[..n]) by {
        assert forall k :: 0 <= k < n ==> rows[..n][k] == rows[k];
      }
      RunKeepsKeyed(s, rows[..n]);
      StepKeepsKeyed(Run(s, rows[..n]), n, rows[n]);
    }
  }

  /** A row on which every timeframe's slot is taken opens nothing. */
  lemma FullSlotsBlockEntry(row: Row, open: seq<MfPosition>)
    requires Frames(open) == {D1, H4, H1}
    ensures ResolveSignals(CheckSignals(row, open), open) == []
  {
    ResolveSignalsSpec(CheckSignals(row, open), open);
  }
}
