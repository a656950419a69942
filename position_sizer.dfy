/**
 * Trade selection and sizing (src/position_sizer.py): pick the signal with
 * the highest current APR (first one on ties), deploy a capital-dependent
 * share of equity, refuse notionals under 25 USD, and convert the notional
 * into an asset quantity at the last ticker price. The ticker lookup is an
 * input map; a symbol missing from it stands for a ticker without a price.
 */
module PositionSizer {
  import opened Wrappers
  import Strategy

  const MinNotionalTradeSizeUsd: real := 25.0

  type Signal = Strategy.Signal

  datatype SizedTrade = SizedTrade(symbol: string, notionalValueUsd: real, assetQuantity: real, assetPrice: real)

  /**
   * Index of the signal that `sorted(..., reverse=True)[0]` picks: the
   * highest APR, and among equals the earliest (the sort is stable).
   */
  function BestIndex(signals: seq<Signal>): (k: nat)
    requires signals != []
    ensures k < |signals|
    ensures forall j :: 0 <= j < |signals| ==> signals[j].currentApr <= signals[k].currentApr
    ensures forall j :: 0 <= j < k ==> signals[j].currentApr < signals[k].currentApr
    decreases |signals|
  {
    if |signals| == 1 then 0
    else
      var k := BestIndex(signals[..|signals| - 1]);
      if signals[|signals| - 1].currentApr > signals[k].currentApr then |signals| - 1 else k
  }

  /** Share of capital deployed: 60% under 300, 70% under 1000, 80% from 1000 on. */
  function DeployPct(capital: real): (pct: real)
    ensures pct in {0.6, 0.7, 0.8}
    ensures pct == 0.6 <==> capital < 300.0
    ensures pct == 0.8 <==> capital >= 1000.0
  {
    if capital < 300.0 then 0.6
    else if capital < 1000.0 then 0.7
    else 0.8
  }

  /** More capital never lowers the deployed share. */
  lemma DeployPctMonotone(c1: real, c2: real)
    requires c1 <= c2
    ensures DeployPct(c1) <= DeployPct(c2)
  {
  }

  /**
   * `select_and_size_position`. None when there is no signal, when the
   * notional is under the minimum, or when the chosen symbol has no
   * positive price.
   */
  function SelectAndSizePosition(signals: seq<Signal>, currentCapitalUsd: real, tickers: map<string, real>): (r: Option<SizedTrade>)
    ensures signals == [] ==> r == None
    ensures r.Some? ==> signals != [] && r.value.symbol in tickers && tickers[r.value.symbol] > 0.0
    ensures r.Some? ==> exists k :: 0 <= k < |signals| && signals[k].symbol == r.value.symbol &&
                          forall j :: 0 <= j < |signals| ==> signals[j].currentApr <= signals[k].currentApr
    ensures r.Some? ==> r.value.notionalValueUsd == currentCapitalUsd * DeployPct(currentCapitalUsd)
    ensures r.Some? ==> r.value.notionalValueUsd >= MinNotionalTradeSizeUsd
    ensures r.Some? ==> r.value.assetPrice == tickers[r.value.symbol]
    ensures r.Some? ==> r.value.assetQuantity * r.value.assetPrice == r.value.notionalValueUsd
    ensures signals != [] && currentCapitalUsd * DeployPct(currentCapitalUsd) < MinNotionalTradeSizeUsd ==> r == None
    // Only the first maximal signal is priced: a later tie is never chosen instead.
    ensures r.Some? ==> r.value.symbol == signals[BestIndex(signals)].symbol
    ensures signals != [] && (signals[BestIndex(signals)].symbol !in tickers || tickers[signals[BestIndex(signals)].symbol] <= 0.0) ==>
              r == None
  {
    if signals == [] then None
    else
      var best := signals[BestIndex(signals)];
      var notional := currentCapitalUsd * DeployPct(currentCapitalUsd);
      if notional < MinNotionalTradeSizeUsd then None
      else if best.symbol !in tickers || tickers[best.symbol] <= 0.0 then None
      else
        var price := tickers[best.symbol];
        Some(SizedTrade(best.symbol, notional, notional / price, price))
  }

  /** With a price available, a large enough capital always yields a trade for the best signal. */
  lemma SizedWhenPriced(signals: seq<Signal>, capital: real, tickers: map<string, real>)
    requires signals != []
    requires capital * DeployPct(capital) >= MinNotionalTradeSizeUsd
    requires signals[BestIndex(signals)].symbol in tickers && tickers[signals[BestIndex(signals)].symbol] > 0.0
    ensures SelectAndSizePosition(signals, capital, tickers).Some?
    ensures SelectAndSizePosition(signals, capital, tickers).value.symbol == signals[BestIndex(signals)].symbol
  {
  }

  /** Exactly the minimum notional is accepted: 25 is not below 25. */
  lemma MinimumIsInclusive(signals: seq<Signal>, tickers: map<string, real>)
    requires signals != []
    requires signals[BestIndex(signals)].symbol in tickers && tickers[signals[BestIndex(signals)].symbol] > 0.0
    ensures SelectAndSizePosition(signals, 125.0 / 3.0, tickers).Some?
    ensures SelectAndSizePosition(signals, 125.0 / 3.0, tickers).value.notionalValueUsd == 25.0
  {
  }

  /** The module's self-tests, with the mock ticker prices. */
  lemma SelfTests()
    ensures var tickers := map["DOGE/USDT" := 0.15, "SOL/USDT" := 150.0, "ETH/USDT" := 3000.0];
            && SelectAndSizePosition([Strategy.Signal("DOGE/USDT", 25.0)], 100.0, tickers).Some?
            && SelectAndSizePosition([Strategy.Signal("DOGE/USDT", 25.0)], 100.0, tickers).value.notionalValueUsd == 60.0
            && SelectAndSizePosition([Strategy.Signal("SOL/USDT", 18.0), Strategy.Signal("ETH/USDT", 22.0)], 500.0, tickers).Some?
            && SelectAndSizePosition([Strategy.Signal("SOL/USDT", 18.0), Strategy.Signal("ETH/USDT", 22.0)], 500.0, tickers).value
               == SizedTrade("ETH/USDT", 350.0, 350.0 / 3000.0, 3000.0)
            && SelectAndSizePosition([Strategy.Signal("DOGE/USDT", 25.0)], 30.0, tickers) == None
  {
  }
}
