# Funding-arbitrage and trend bot core, modelled in Dafny

This project models the decision core of a small crypto-trading repository.
The repository holds three things:

- a live spot bot that keeps a per-symbol position ledger, places a bracket (OCO) order after every buy and stamps a cooldown when an exit is detected;
- a delta-neutral funding-rate arbitrage engine (strategy, position sizer, two-legged execution state machine, data feed, high-water-mark kill switch);
- five backtest simulators: trailing stop, funding arbitrage, research funding arbitrage, trend and multi-timeframe, and pairs.

Each source file of the core is one Dafny module.
Objects whose fields the source updates in place are classes with `modifies` clauses:

- the bot's `RiskManager` ledger;
- the drawdown `RiskManager`;
- `ExecutionHandler`;
- `DataFeedManager`;
- `TradingBot`;
- the trend and multi-timeframe backtester objects.

Loops that update local variables are methods proved against a left fold (`Run`) over the input rows.
The properties the code promises are lemmas about that fold.
The pure rules are functions with named results, plus lemmas:

- tier selection, signal condition, deploy percentage;
- execution prices, exit detection, z-score exits.

Money and prices are `real`. Exchange answers, wall-clock time, random skips and strategy signals are parameters.
Indicator columns (moving averages, RSI, ATR, z-scores, rolling APR averages) arrive precomputed in each row.
Three defects in the source are modelled twice: once as written, with the input that shows the failure, and once as evidently intended. The rest of the model uses the intended version (see Findings).

Modules:

- `Wrappers`: the `Option` type.
- `Symbols`: the text before the first `/` and the derived perpetual symbol `BASE/USDT:USDT`.
- `BotRiskManager` (`src/bot/risk_manager.py`): ledger of positions keyed by symbol.
- `DrawdownRiskManager` (`src/risk_manager.py`): high-water mark and shutdown threshold.
- `Execution` (`src/execution.py`): IDLE → ENTERING → IN_POSITION / EMERGENCY_CLOSING entry machine with an exchange-call trace; an exception from the unguarded poll or cancel leaves it ENTERING.
- `PositionSizer` (`src/position_sizer.py`) and `Strategy` (`src/strategy.py`): selection and sizing rules.
- `DataFeed` (`src/data_feed.py`): reconnect counter and funding-rate validator.
- `TradingBot` (`src/bot/trading_bot.py`): exit detection, BUY/SELL gating, save cadence, restore.
- `TrailingStopBacktest`, `FundingArbBacktest`, `ResearchFundingArbBacktest`, `TrendBacktest`, `MultiFrameBacktest`, `PairsBacktest`: the per-row steps of the simulators.

## Model

| member | source | states |
|---|---|---|
| Symbols.BaseAsset | src/execution.py:38 | the base asset is a prefix of the symbol, holds no `/`, and is followed by `/` when shorter than the symbol |
| Symbols.BaseAssetOfPair | src/strategy.py:76 | for `BASE/anything` with a slash-free base, the base asset is exactly `BASE` |
| Symbols.PerpSymbolOfPair | src/data_feed.py:70 | the perpetual symbol of `BASE/QUOTE` is `BASE/USDT:USDT`, whatever the quote |
| Symbols.BaseAssetWithoutSlash | src/execution.py:38 | a symbol without `/` is its own base asset |
| Symbols.DogePerp | src/execution.py:38 | `DOGE/USDT` maps to `DOGE/USDT:USDT` |
| BotRiskManager.FlatLedger | src/bot/risk_manager.py:18 | the initial ledger has one flat entry per configured symbol and no open symbol |
| BotRiskManager.OpenFlatAddsOne | src/bot/risk_manager.py:21-46 | opening a flat registered symbol with positive size adds exactly that symbol to the open set and raises the open count by one |
| BotRiskManager.WriteKeepsOthers | src/bot/risk_manager.py:43-46 | writing one symbol's entry leaves whether every other symbol is open unchanged |
| BotRiskManager.ResetRemovesOne | src/bot/risk_manager.py:49-50 | flattening a symbol removes it from the open set; the count drops by one iff it was open |
| BotRiskManager.RiskManager.constructor | src/bot/risk_manager.py:5-18 | parameters are stored; every configured symbol is registered flat; the open count is 0 |
| BotRiskManager.RiskManager.CanOpenNewPosition | src/bot/risk_manager.py:21-29 | true iff the number of symbols with size > 0 is strictly below `max_open_trades` |
| BotRiskManager.RiskManager.GetPositionSize | src/bot/risk_manager.py:31-32 | a value iff the symbol is registered (the source raises otherwise), and then its size |
| BotRiskManager.RiskManager.GetEntryPrice | src/bot/risk_manager.py:56-57 | a value iff the symbol is registered, and then its entry price |
| BotRiskManager.RiskManager.GetOpenOrderId | src/bot/risk_manager.py:53-54 | a value iff the symbol is registered, and then its OCO list id |
| BotRiskManager.RiskManager.CalculateTradeSize | src/bot/risk_manager.py:34-35 | size × price equals the per-trade USDT amount; positive for positive price and amount |
| BotRiskManager.RiskManager.GetStopLossPrice | src/bot/risk_manager.py:37-38 | entry − stop equals entry × pct; below the entry for positive pct and above zero for pct < 1 |
| BotRiskManager.RiskManager.GetTakeProfitPrice | src/bot/risk_manager.py:40-41 | take-profit − entry equals entry × pct; above the entry for positive pct |
| BotRiskManager.RiskManager.OpenPosition | src/bot/risk_manager.py:43-46 | succeeds iff the symbol is registered; overwrites exactly that entry (flat or not) and nothing else; the count rises by one when a flat symbol gets a positive size |
| BotRiskManager.RiskManager.ClosePosition | src/bot/risk_manager.py:49-50 | the symbol becomes flat with no order id; it leaves the open set, and the count drops by one iff it was open |
| DrawdownRiskManager.NextMark | src/risk_manager.py:45-46 | the new high-water mark is the larger of the old mark and the capital, and equals one of them |
| DrawdownRiskManager.MarkBoundsAll | src/risk_manager.py:45-46 | after a sequence of checks the mark is at least the start and every capital seen |
| DrawdownRiskManager.MarkIsAttained | src/risk_manager.py:45-46 | the mark is always the start or some capital seen |
| DrawdownRiskManager.MarkMonotone | src/risk_manager.py:45-46 | the mark after a prefix of the checks never exceeds the mark after all of them |
| DrawdownRiskManager.VerdictsLength | src/risk_manager.py:34-67 | one verdict per check |
| DrawdownRiskManager.VerdictIsPasses | src/risk_manager.py:45-67 | the i-th answer is "ok" iff capital i is at least pct × the mark over checks 0..i (shutdown only strictly below the threshold) |
| DrawdownRiskManager.RiskManager.constructor | src/risk_manager.py:14-28 | the mark starts at the starting capital and the threshold at starting capital × pct |
| DrawdownRiskManager.RiskManager.Check | src/risk_manager.py:34-67 | the mark becomes max(old mark, capital) and never drops; the threshold stays mark × pct; the answer is true iff capital ≥ the new threshold |
| DrawdownRiskManager.CheckAll | src/risk_manager.py:34-67 | a run of checks yields exactly `Verdicts` and leaves the mark at `MarkAfter` |
| DrawdownRiskManager.PeakRaisesTheBar | src/risk_manager.py:77-99 | start 100, pct 0.8: capitals 100, 120, 90 give true, true, false (90 < 96) |
| Execution.ExecutionHandler.constructor | src/execution.py:15-19 | starts IDLE with no current position |
| Execution.ExecutionHandler.OpenTrade | src/execution.py:24-85 | outside IDLE: false, no calls, no change. Leg-1 failure: back to IDLE, one call. The poll raising, or the cancel of an unfilled order raising, propagates out of the unguarded calls and leaves the handler ENTERING; that is the only way to stay ENTERING. No fill with a working cancel: back to IDLE. Spot failure after a fill: EMERGENCY_CLOSING. True iff IN_POSITION, and then the position is the order. The spot leg comes only after a confirmed fill, with the same quantity |
| Execution.Attempts | src/execution.py:17-33 | every state other than IDLE is absorbing (ENTERING after an exception, IN_POSITION, EMERGENCY_CLOSING): every later attempt fails, and at most one attempt in any run succeeds |
| PositionSizer.BestIndex | src/position_sizer.py:35 | the chosen signal has the maximum APR, and every earlier signal has a strictly smaller APR (stable sort, ties to the first) |
| PositionSizer.DeployPct | src/position_sizer.py:39-46 | 0.6 iff capital < 300, 0.8 iff capital ≥ 1000, 0.7 otherwise |
| PositionSizer.DeployPctMonotone | src/position_sizer.py:39-46 | more capital never deploys a smaller fraction |
| PositionSizer.SelectAndSizePosition | src/position_sizer.py:18-80 | empty input or a notional below 25 gives none. Only the first signal with the maximum APR is considered: if its symbol has no positive price the result is none, even when a later tied symbol is priced. Otherwise the trade is for that symbol at the ticker price, with notional = capital × pct ≥ 25 and quantity × price = notional |
| PositionSizer.SizedWhenPriced | src/position_sizer.py:52-77 | when the notional reaches 25 and the best symbol has a positive price, a trade is produced for that symbol |
| PositionSizer.MinimumIsInclusive | src/position_sizer.py:52-56 | capital 125/3 gives a notional of exactly 25, which proceeds |
| PositionSizer.SelfTests | src/position_sizer.py:97-119 | the three source scenarios (picks the best APR, rejects tiny capital, sizes DOGE) |
| Strategy.QualifyingIsLargestTier | src/strategy.py:44-46 | below every threshold nothing qualifies; otherwise the asset list of the largest threshold ≤ capital (inclusive) |
| Strategy.QualifyingMonotone | src/strategy.py:31-46 | with ascending thresholds and nested lists, more capital never removes an asset |
| Strategy.QualifyingPicksATier | src/strategy.py:44-46 | the result is empty or exactly some tier's asset list |
| Strategy.GetEligibleAssets | src/strategy.py:38-47 | the loop returns the largest qualifying tier's assets from the fixed tier table |
| Strategy.EligibleTable | src/strategy.py:31-47 | the concrete table: below 100 nothing, then DOGE; +SOL from 200; +ETH from 500; +BTC from 1000 |
| Strategy.EligibleMonotone | src/strategy.py:31-46 | the shipped tier table is monotone in capital |
| Strategy.Apr | src/strategy.py:86 | APR = rate × 3 × 365 × 100, positive iff the rate is |
| Strategy.AprAll | src/strategy.py:86 | one APR per rate, element-wise |
| Strategy.SignalFor | src/strategy.py:76-103 | at most one signal; emitted iff the symbol has parameters, enough history, latest APR > entry and rolling mean > entry; it carries that symbol and an APR above the entry |
| Strategy.SignalsSound | src/strategy.py:67-103 | every emitted signal is for an eligible asset that meets the entry condition |
| Strategy.SignalsComplete | src/strategy.py:67-103 | every eligible asset that meets the entry condition is emitted |
| Strategy.CheckSignals | src/strategy.py:49-109 | the loop yields the signals over the eligible assets; capital below 100 yields none |
| DataFeed.ValidateFundingRates | src/data_feed.py:90-95 | false iff some record has |rate| > 0.01 (strict) |
| DataFeed.DataFeedManager.constructor | src/data_feed.py:22-27 | starts DISCONNECTED with no reconnect attempts |
| DataFeed.DataFeedManager.Connect | src/data_feed.py:30-37 | status becomes CONNECTED, attempts reset to 0, returns true |
| DataFeed.DataFeedManager.HandleDisconnect | src/data_feed.py:46-58 | below the maximum: waits 2^(attempts+1) s and reconnects, which resets attempts to 0; at the maximum: shutdown with status and counter unchanged |
| DataFeed.DataFeedManager.Disconnect | src/data_feed.py:39-44 | marks DISCONNECTED, then runs the reconnect logic |
| DataFeed.DataFeedManager.GetFundingRateData | src/data_feed.py:60-85 | not connected: nothing fetched. A fetched history is returned even when suspicious, and flagged. A failed fetch disconnects and returns nothing |
| DataFeed.RepeatedDisconnects | src/data_feed.py:30-54 | from a fresh counter, every disconnect waits 2 s and reconnects, so the counter never leaves 0 |
| TrailingStopBacktest.TrackHigh | src/backtest.py:58-59 | the highest price seen becomes max(old, price); nothing else changes |
| TrailingStopBacktest.ManageExit | src/backtest.py:61-82 | the position exits iff price ≤ stop, at the slipped stop price, with the fee deducted from the proceeds |
| TrailingStopBacktest.ManageHeld | src/backtest.py:58-96 | a held position's high becomes max(old, price); the trail is armed iff it was armed or price reached entry × (1 + activation), so it never un-arms; an ordered stop never drops; once armed the stop is at least high × (1 − callback); size and entry are untouched |
| TrailingStopBacktest.OpenedBookkeeping | src/backtest.py:99-127 | entry at the slipped price: size × entry = usdt per trade, cost includes the fee, trail unarmed, high = entry |
| TrailingStopBacktest.ManageOpenPosition | src/backtest.py:57-96 | the per-tick management equals `Manage` |
| TrailingStopBacktest.RunBacktest | src/backtest.py:46-131 | the loop's final cash, position, trades and equity curve equal the fold `Run` from the initial state |
| TrailingStopBacktest.RunKeepsStopOrdered | src/backtest.py:88-96 | with initial stops at or below entry, an open position's stop stays ordered (stop ≤ entry before arming, ≥ entry after) across any tick sequence |
| TrailingStopBacktest.EquityPointPerTick | src/backtest.py:53-131 | one equity point per warmed-up tick, except ticks refused for lack of cash; exactly one per warmed-up tick when no buy signal occurs |
| TrailingStopBacktest.StepCashNonNegative | src/backtest.py:57-127 | one tick keeps cash and the open position's size, entry and stop non-negative: an exit adds non-negative proceeds and an entry needs cash ≥ its cost |
| TrailingStopBacktest.RunCashNonNegative | src/backtest.py:113-115 | cash never goes negative, because an entry needs cash ≥ its cost |
| TrailingStopBacktest.WorkedExample | src/backtest.py:57-96 | entry 100, activation 0.02, callback 0.01: a tick at 102 arms the trail and ratchets the stop to 100.98 on the same tick; 110 lifts it to 108.9; 105 exits as a trailing-stop hit at 108.9 less slippage |
| TrailingStopBacktest.UnexpectedKeyword | src/backtest.py:30-37 | keyword binding: the result is the first keyword, in call order, that names no parameter, and None means every keyword binds |
| TrailingStopBacktest.AsWrittenRaisesBeforeLoop | src/backtest.py:30-46 | for any data, building the risk manager raises TypeError on `atr_multiplier` before the first tick is simulated |
| TradingBot.ExitsApplied | src/bot/trading_bot.py:27-68 | exit detection over all symbols keeps the ledger's symbol set |
| TradingBot.Stamped | src/bot/trading_bot.py:65 | cooldown stamps are added exactly for the symbols closed by exit detection |
| TradingBot.NoOpenOrdersMeansClosed | src/bot/trading_bot.py:29-40 | an open position with no open orders on the exchange counts as exited |
| TradingBot.LegIdsOutsideListIdCountAsClosed | src/bot/trading_bot.py:38-40 | ids 2001 and 2002 do not occur in the text 17, so the position counts as exited |
| TradingBot.MatchingIdKeepsOpen | src/bot/trading_bot.py:38-40 | an open order whose id equals the list id's text keeps the position open |
| TradingBot.SymbolStep | src/bot/trading_bot.py:160-282 | processing a symbol changes only that symbol's entry |
| TradingBot.BuyGating | src/bot/trading_bot.py:162-195 | the step starts with a market buy iff the price is non-zero, candles exist, the signal is BUY, the size is 0, at least 300 s passed since the symbol's last exit, the open count is below the cap and the balance covers one trade |
| TradingBot.SellGating | src/bot/trading_bot.py:250-282 | a SELL on a flat symbol does nothing; on an open one the OCO list is cancelled iff its id is truthy, and a failed cancel stops there; otherwise the whole size is market-sold, and the entry becomes flat exactly when the sell and the pnl report (non-zero entry price) both go through |
| TradingBot.SkipWithoutData | src/bot/trading_bot.py:162-168 | price 0 or empty candles: no change and no call |
| TradingBot.BracketAroundEntry | src/bot/trading_bot.py:200-224 | after a filled buy, the OCO order's stop is below and its take-profit above the fill price |
| TradingBot.StepKeepsCap | src/bot/trading_bot.py:186-190 | one symbol step never lifts the open count above `max_open_trades` |
| TradingBot.SymbolsStep | src/bot/trading_bot.py:160-282 | the symbol loop keeps the ledger's symbol set |
| TradingBot.SymbolsStepKeepsCap | src/bot/trading_bot.py:160-282 | the whole symbol loop keeps the open count within the cap |
| TradingBot.SignalCallRaisesAt | src/bot/trading_bot.py:160-170 | as written, the symbol loop stops at the first symbol with a non-zero price and candles, because the strategy call there has the wrong arity; every earlier symbol was skipped, and None means every symbol was skipped |
| TradingBot.SkippedPrefix | src/bot/trading_bot.py:160-168 | a run of skipped symbols (zero price or no candles) leaves the ledger unchanged and sends no order |
| TradingBot.AsWrittenPassSendsNothing | src/bot/trading_bot.py:160-170 | as written, the symbol loop sends no order and changes no position before it stops |
| TradingBot.SignalArityBlocksBuy | src/bot/trading_bot.py:160-195 | one flat symbol with a BUY signal, price 2 and balance 500: the corrected loop market-buys 50 units, while the loop as written stops at that symbol |
| TradingBot.TradingBot.constructor | src/bot/trading_bot.py:14-24 | risk limits 100 USDT / 3 % / 6 % / 3 trades; restored positions if saved, else a flat ledger; no cooldown stamps |
| TradingBot.TradingBot.RestoreState | src/bot/trading_bot.py:118-135 | the whole ledger is replaced iff the saved state has positions |
| TradingBot.TradingBot.CheckForExits | src/bot/trading_bot.py:27-68 | crashes iff a configured symbol is missing from the ledger; otherwise the ledger becomes `ExitsApplied` and closed symbols get the cooldown stamp |
| TradingBot.TradingBot.CheckExit | src/bot/trading_bot.py:29-66 | a detected exit flattens the symbol and stamps it; otherwise nothing changes |
| TradingBot.TradingBot.ProcessSymbol | src/bot/trading_bot.py:160-282 | the method's ledger and exchange calls equal `SymbolStep` |
| TradingBot.TradingBot.RunIteration | src/bot/trading_bot.py:141-293 | keeps the cap. The iteration crashes iff a /status request meets a ledger the formatter cannot handle (then nothing changes) or a configured symbol is missing from the ledger (then the exits of the symbols before it are kept); otherwise it completes. A completed iteration applies exits (stamping cooldowns) and then the symbol loop, exactly as `ExitsApplied` and `SymbolsStep`, and saves iff more than 300 s passed since the last save. A crash saves nothing |
| TradingBot.ExitsKeepCap | src/bot/trading_bot.py:27-68 | exit detection only shrinks the open set, so it keeps the cap |
| TradingBot.Run | src/bot/trading_bot.py:141-293 | one result per iteration, and the open count stays within the cap across the whole run |
| FundingArbBacktest.Accrue | src/funding_arb_backtester.py:79-83 | each held row adds notional × rate to gross pnl and one to the payment count |
| FundingArbBacktest.ExitReasonFor | src/funding_arb_backtester.py:86-104 | APR below exit: APR exit; else a negative rate: kill switch; else no exit (all three iff) |
| FundingArbBacktest.Step | src/funding_arb_backtester.py:77-119 | appends exactly one equity point, the row's final equity, keeping the earlier curve |
| FundingArbBacktest.RunFundingArbBacktest | src/funding_arb_backtester.py:27-151 | no parameters for the symbol: the error result; otherwise the report of `Run` with the deploy pct fixed from the initial capital |
| FundingArbBacktest.ProcessRow | src/funding_arb_backtester.py:79-119 | the row body's locals equal `Step` |
| FundingArbBacktest.StepEquity | src/funding_arb_backtester.py:86-119 | equity changes only on exit rows, by gross pnl − notional × 0.005 |
| FundingArbBacktest.StepAccrues | src/funding_arb_backtester.py:79-83 | a held row without exit keeps the position and accrues the rate |
| FundingArbBacktest.StepEntry | src/funding_arb_backtester.py:108-117 | a flat row meeting the strict entry test opens a trade with notional = equity × pct × leverage |
| FundingArbBacktest.ReentryOnExitRow | src/funding_arb_backtester.py:86-117 | a row can close a trade and open the next one |
| FundingArbBacktest.PositionIndependentOfSizing | src/funding_arb_backtester.py:63-117 | whether a position is open, and the trade count, do not depend on pct or leverage |
| FundingArbBacktest.RunCounts | src/funding_arb_backtester.py:116-150 | one equity point per row; trades = number of entries |
| FundingArbBacktest.NoTradesNoProfit | src/funding_arb_backtester.py:122-127 | a run without trades ends flat with equity, and every equity point, at the initial capital |
| FundingArbBacktest.ZeroReportAgrees | src/funding_arb_backtester.py:122-151 | for a run without trades, the report is the general one: last equity point − capital (so 0) and 0 trades |
| ResearchFundingArbBacktest.Step | src/research/funding_arb_backtester.py:57-76 | one equity point per row |
| ResearchFundingArbBacktest.Run | src/research/funding_arb_backtester.py:57-76 | one equity point per row over the whole run |
| ResearchFundingArbBacktest.RunFundingArbBacktest | src/research/funding_arb_backtester.py:47-108 | the loop's report equals the summary of `Run` from the initial capital |
| ResearchFundingArbBacktest.ProcessRow | src/research/funding_arb_backtester.py:57-76 | the row body's locals equal `Step` |
| ResearchFundingArbBacktest.EquityPointBeforeCosts | src/research/funding_arb_backtester.py:58-62 | the recorded point is the equity after accrual and before that row's exit or entry costs |
| ResearchFundingArbBacktest.MinimumHolding | src/research/funding_arb_backtester.py:64 | no exit while the age is below the minimum holding period, whatever the APR |
| ResearchFundingArbBacktest.ExitPnl | src/research/funding_arb_backtester.py:64-75 | an exit deducts notional × 0.0025; trade pnl = post-cost equity − entry equity. Without an entry signal on the same row the position resets (flat, no notional, age 0, equity = post-cost equity); with one, a new open trade starts on that row, its notional the post-exit equity × leverage |
| ResearchFundingArbBacktest.EntryBookkeeping | src/research/funding_arb_backtester.py:71-76 | entry: notional = pre-cost equity × leverage; the same half cost is deducted; entry equity is the post-cost value; age 0 |
| ResearchFundingArbBacktest.HeldStretch | src/research/funding_arb_backtester.py:58-61 | over rows that never exit, equity grows by notional × the sum of the rates and age by the row count |
| TrendBacktest.ExecutionPriceOrder | src/research/trend_backtester.py:179-187 | buy +0.1 %, sell −0.1 %, stop loss −(0.1 % + volatility slippage); stop < sell < ideal < buy |
| TrendBacktest.ExitFor | src/research/trend_backtester.py:139-144 | an exit iff low ≤ stop or high ≥ take-profit; it is a stop-loss exit iff low ≤ stop |
| TrendBacktest.ExitPassKeepsSurvivors | src/research/trend_backtester.py:136-153 | the exit pass keeps exactly the untouched positions in order, appends one trade per exit, and keeps earlier trades |
| TrendBacktest.SurvivorsShrink | src/research/trend_backtester.py:153 | survivors are no more than before, and none of them is hit on that bar |
| TrendBacktest.OpenedSizing | src/research/trend_backtester.py:157-162 | entry = close × 1.001; size × entry = equity × pct / 100; for positive percentages the stop is below and the take-profit above the entry |
| TrendBacktest.TrendBacktester.constructor | src/research/trend_backtester.py:45-50 | starts with the initial equity and no trades, positions or curve |
| TrendBacktest.TrendBacktester.CloseHitPositions | src/research/trend_backtester.py:136-153 | the object's equity, trades and positions equal the exit pass |
| TrendBacktest.TrendBacktester.RunBacktest | src/research/trend_backtester.py:127-173 | false iff there are no bars; the final object state equals the fold `Run` |
| TrendBacktest.StopBeforeTakeProfit | src/research/trend_backtester.py:139-144 | a bar touching both levels exits as a stop loss at the stop execution price |
| TrendBacktest.UnknownSetupNeverEnters | src/research/trend_backtester.py:85-94 | a setup other than A, B, C never enters |
| TrendBacktest.FullBookRefuses | src/research/trend_backtester.py:96-103 | no entry when the open count has reached the maximum |
| TrendBacktest.StepKeepsCap | src/research/trend_backtester.py:154-170 | one bar keeps the open count within the maximum |
| TrendBacktest.RunKeepsCap | src/research/trend_backtester.py:127-173 | the whole run keeps the open count within the maximum |
| TrendBacktest.EquityPointPerBar | src/research/trend_backtester.py:155-171 | at most one equity point per bar, exactly one per bar when no random skip is drawn |
| MultiFrameBacktest.CheckSignal | src/research/multi_frame_backtester.py:125-146 | never SELL; nothing when the timeframe's slot is open; BUY iff the slot is free, the candle is not extended, volatility is not high, it is not an FOMC day, close > SMA, RSI is below the timeframe's maximum and volume exceeds its 20-bar mean |
| MultiFrameBacktest.FirstTakeableSpec | src/research/multi_frame_backtester.py:153-160 | returns at most one timeframe, the first takeable one, with every earlier one not takeable |
| MultiFrameBacktest.ResolveSignalsSpec | src/research/multi_frame_backtester.py:150-160 | a 1d SELL gives nothing; otherwise at most one timeframe, empty iff none is takeable (BUY, free slot, fewer than 3 open), and no takeable timeframe of higher priority (1d, then 4h, then 1h) is passed over |
| MultiFrameBacktest.OpenedSizing | src/research/multi_frame_backtester.py:207-214 | size × entry = notional = capital × the timeframe's pct / 100; stop < entry < take-profit |
| MultiFrameBacktest.ExitPassKeepsSurvivors | src/research/multi_frame_backtester.py:176-201 | the exit pass keeps exactly the untouched positions |
| MultiFrameBacktest.SurvivorsKeyed | src/research/multi_frame_backtester.py:195-201 | deleting exited keys keeps one position per timeframe and only shrinks the set of used timeframes |
| MultiFrameBacktest.MultiFrameBacktester.constructor | src/research/multi_frame_backtester.py:73-79 | starts with the given capital and no trades, positions or curve |
| MultiFrameBacktest.MultiFrameBacktester.CloseHitPositions | src/research/multi_frame_backtester.py:176-201 | the object's capital, trades and positions equal the exit pass |
| MultiFrameBacktest.MultiFrameBacktester.RunBacktest | src/research/multi_frame_backtester.py:172-228 | the final object state equals the fold `Run` |
| MultiFrameBacktest.StepKeepsKeyed | src/research/multi_frame_backtester.py:204-227 | one bar keeps at most one position per timeframe and appends one equity point |
| MultiFrameBacktest.RunKeepsKeyed | src/research/multi_frame_backtester.py:172-228 | the whole run keeps one position per timeframe and one equity point per bar |
| MultiFrameBacktest.FullSlotsBlockEntry | src/research/multi_frame_backtester.py:153-160 | with all three timeframes open nothing is entered |
| PairsBacktest.OpenPositionLegs | src/pairs_backtester.py:129-145 | each leg's size × fill price is 1000; fills slip against the trader on each side; the recorded initial value is 0 |
| PairsBacktest.UnrealizedPnlSymmetry | src/pairs_backtester.py:164-181 | SHORT's unrealized pnl is the negation of LONG's; it is 0 at the recorded prices |
| PairsBacktest.RoundTripAtSamePricesLoses | src/pairs_backtester.py:129-162 | opening and closing at unchanged market prices loses money, because of slippage and fees |
| PairsBacktest.ExitFor | src/pairs_backtester.py:88-105 | stop loss iff LONG below −3.5 or SHORT above 3.5; no exit iff z lies strictly inside the side's band (LONG: −3.5 ≤ z < 0, SHORT: 0 < z ≤ 3.5) |
| PairsBacktest.EntryFor | src/pairs_backtester.py:108-119 | LONG iff tradeable and z < −2; SHORT iff tradeable and z > 2 |
| PairsBacktest.RunPairsBacktest | src/pairs_backtester.py:74-126 | the loop's cash, position, trades and equity series equal the fold `Run` from the initial capital |
| PairsBacktest.StepBookkeeping | src/pairs_backtester.py:85-126 | each row appends its equity (cash + unrealized when positioned, else cash); an exit appends the closing pnl and adds it to cash; otherwise cash and trades are unchanged |
| PairsBacktest.HoldWhileBetween | src/pairs_backtester.py:85-119 | trades are unchanged iff no exit fires; no exit keeps the position; a take-profit leaves the pair flat or re-entered on the other side |
| PairsBacktest.StopAndReenter | src/pairs_backtester.py:88-112 | a LONG stopped out at z = −4 on a tradeable row re-enters LONG on the same row |
| PairsBacktest.EquityPerRow | src/pairs_backtester.py:80-126 | one equity point per row and at most one trade per row |
| PairsBacktest.AsWrittenStopsAtFirstEntry | src/pairs_backtester.py:80-129 | as written, the run stops at the first row with an entry signal, still flat, with no trades and its starting cash. It finishes only when no row signals, and then it equals the corrected fold |
| PairsBacktest.FirstEntryRaises | src/pairs_backtester.py:108-112 | one cointegrated row at z = -2.5: the corrected loop opens a LONG pair, while the loop as written stops on that row |

## Left out

- Exchange, network and HTTP access: order placement, tickers, balances, OHLCV, funding histories and fills are parameters of the operations (per-row columns, `Option` answers, booleans for fill or failure).
- Telegram notifier, logging, printing and plotting are not modelled. Message formatting for `/status` is kept only as the condition under which it crashes.
- `time.sleep` and wall-clock time are not modelled. The bot takes a `now` per iteration; the data feed returns the backoff it would sleep.
- Random skips in the trend and multi-timeframe backtesters are per-bar booleans in the input.
- Loading CSV files with pandas, aligning frames and computing indicators (SMA, RSI, ATR, VWAP, rolling APR means, cointegration, z-scores) are not modelled. Their results are columns of the input rows.
- Statistics reports (Sharpe ratio, drawdown, win rate, profit factor, plots) are not modelled. Only the quantities the loops compute (equity curve, trade list, net profit, trade count) are.
- Floating point: all money is `real`, so rounding and `inf`/`nan` are not modelled. Divisions by prices use positive-price preconditions: the live loop skips price 0 before dividing; the backtests read market data.
- `src/bot/state_manager.py` and `src/ledger.py` (JSON/CSV persistence) are not part of this model. A save is recorded as an attempted event and a load as an optional saved state.
- `DataFeed.DataFeedManager.GetFundingRateData`: the `limit` argument is not modelled (the history is whatever the exchange parameter holds). `validate_data_freshness` always returns true in the source, so it is not modelled.
- `TradingBot.TradingBot.RunIteration`: the strategy signal is an input. The strategy's indicators are not modelled, and the call as written fails (see Findings).
- `TrailingStopBacktest.RunBacktest`: the configuration and each tick's initial stop are inputs. The script's risk manager cannot be built as written (see Findings). Its stop-loss call at `src/backtest.py:108` also passes an ATR argument that the bot risk manager's `get_stop_loss_price` does not take, and that call is not modelled.
- `PairsBacktest.RunPairsBacktest`: models the evident intent, with the helpers defined before the loop. The script as written fails on its first entry (see Findings).
- `Execution.ExecutionHandler.OpenTrade`: the EXITING state named in the source's comment is never entered by any code, so it is not a state of the model. Leaving EMERGENCY_CLOSING (manual intervention) is not modelled.
- `TradingBot.TradingBot.RunIteration`: the outer `while True` loop with its 60 s sleep after a crash is modelled as `TradingBot.Run` over a finite list of iterations; KeyboardInterrupt is not modelled.
- `DataFeed.DataFeedManager.HandleDisconnect`: `connect` resets the counter, so from any reachable state the wait is always 2 s. The model keeps the source's counter and states this as `DataFeed.RepeatedDisconnects`.

## Findings

| source | as written | input that shows it | evidently intended | confidence | as-written member | corrected member |
|---|---|---|---|---|---|---|
| src/bot/trading_bot.py:170 | `get_signal(ohlcv, current_price)` is called with two arguments, but `src/bot/strategy.py:47` takes two candle frames and a price. Every symbol with a price and candles raises TypeError, the handler at lines 289-293 catches it, and the bot never places an order | one flat symbol, BUY signal, price 2, balance 500 | the strategy is consulted and its signal drives the BUY/SELL branches | not executed | TradingBot.SignalArityBlocksBuy | TradingBot.BuyGating |
| src/backtest.py:30-37 | the risk manager is built with `atr_multiplier` and two trailing-stop keywords that `src/bot/risk_manager.py:5-11` does not accept, so TypeError is raised before the loop | any candle data | a risk manager with 200 USDT per trade and 2% / 1% trailing-stop settings | not executed | TrailingStopBacktest.AsWrittenRaisesBeforeLoop | TrailingStopBacktest.RunBacktest |
| src/pairs_backtester.py:112 | `open_position`, `close_position` and `calculate_unrealized_pnl` are defined at lines 129-181, after the loop that calls them. The first entry raises UnboundLocalError | one cointegrated row with z = -2.5 | the helpers are defined before the loop, and the entry opens a LONG pair | not executed | PairsBacktest.FirstEntryRaises | PairsBacktest.RunPairsBacktest |
