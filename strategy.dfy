/**
 * The funding-arbitrage strategy (src/strategy.py): per-asset parameters,
 * capital tiers that unlock assets, and the entry signal computed from the
 * recent funding-rate history of each eligible asset's perpetual contract.
 * The exchange's history fetch is an input map keyed by perpetual symbol;
 * a symbol missing from it stands for a fetch that raised.
 */
module Strategy {
  import Symbols

  /** An entry signal: the spot symbol and its latest annualised APR. */
  datatype Signal = Signal(symbol: string, currentApr: real)

  datatype Params = Params(entryApr: real, exitApr: real, filterPeriods: nat)

  /** A capital tier: from `threshold` on, `assets` may be traded. */
  datatype Tier = Tier(threshold: real, assets: seq<string>)

  /** The optimised per-asset parameters. */
  const OptimalParams: map<string, Params> := map[
    "BTC/USDT" := Params(15.0, 3.0, 3),
    "ETH/USDT" := Params(15.0, 3.0, 12),
    "SOL/USDT" := Params(12.0, 3.0, 9),
    "DOGE/USDT" := Params(12.0, 4.0, 3)
  ]

  /** The capital tiers in ascending order of threshold. */
  const CapitalTiers: seq<Tier> := [
    Tier(100.0, ["DOGE/USDT"]),
    Tier(200.0, ["DOGE/USDT", "SOL/USDT"]),
    Tier(500.0, ["DOGE/USDT", "SOL/USDT", "ETH/USDT"]),
    Tier(1000.0, ["DOGE/USDT", "SOL/USDT", "ETH/USDT", "BTC/USDT"])
  ]

  predicate Ascending(tiers: seq<Tier>)
  {
    forall i, j :: 0 <= i < j < |tiers| ==> tiers[i].threshold < tiers[j].threshold
  }

  /** Each tier's assets include those of every lower tier. */
  predicate Nested(tiers: seq<Tier>)
  {
    forall i, j :: 0 <= i < j < |tiers| ==> forall a :: a in tiers[i].assets ==> a in tiers[j].assets
  }

  /** The assets of the last tier in the list whose threshold is at most `capital`; [] if none. */
  function Qualifying(tiers: seq<Tier>, capital: real): seq<string>
    decreases |tiers|
  {
    if tiers == [] then []
    else if capital >= tiers[|tiers| - 1].threshold then tiers[|tiers| - 1].assets
    else Qualifying(tiers[..|tiers| - 1], capital)
  }

  /**
   * On ascending tiers, `Qualifying` is the tier with the largest threshold
   * not above the capital (inclusive), and empty exactly when the capital is
   * below every threshold.
   */
  lemma {:induction false} QualifyingIsLargestTier(tiers: seq<Tier>, capital: real)
    requires Ascending(tiers)
    ensures (forall i :: 0 <= i < |tiers| ==> capital < tiers[i].threshold) ==> Qualifying(tiers, capital) == []
    ensures forall k :: 0 <= k < |tiers| && tiers[k].threshold <= capital &&
                        (k + 1 == |tiers| || capital < tiers[k + 1].threshold) ==>
                        Qualifying(tiers, capital) == tiers[k].assets
    decreases |tiers|
  {
    if tiers != [] {
      var n := |tiers| - 1;
      var prefix := tiers[..n];
      QualifyingIsLargestTier(prefix, capital);
      forall k | 0 <= k < |tiers| && tiers[k].threshold <= capital && (k + 1 == |tiers| || capital < tiers[k + 1].threshold)
        ensures Qualifying(tiers, capital) == tiers[k].assets
      {
        if k < n {
          assert capital < tiers[n].threshold by {
            assert tiers[k + 1].threshold <= tiers[n].threshold;
          }
          assert prefix[k] == tiers[k];
          assert k + 1 == |prefix| || prefix[k + 1] == tiers[k + 1];
        }
      }
      if forall i :: 0 <= i < |tiers| ==> capital < tiers[i].threshold {
        assert forall i :: 0 <= i < |prefix| ==> prefix[i] == tiers[i];
      }
    }
  }

  /**
   * With nested ascending tiers, more capital never loses an asset.
   */
  lemma {:induction false} QualifyingMonotone(tiers: seq<Tier>, c1: real, c2: real)
    requires Ascending(tiers) && Nested(tiers)
    requires c1 <= c2
    ensures forall a :: a in Qualifying(tiers, c1) ==> a in Qualifying(tiers, c2)
    decreases |tiers|
  {
    if tiers != [] {
      var n := |tiers| - 1;
      var prefix := tiers[..n];
      assert Ascending(prefix) && Nested(prefix);
      if c2 < tiers[n].threshold {
        QualifyingMonotone(prefix, c1, c2);
      } else if c1 < tiers[n].threshold {
        QualifyingPicksATier(prefix, c1);
        forall a | a in Qualifying(tiers, c1) ensures a in tiers[n].assets {
          var k :| 0 <= k < n && Qualifying(prefix, c1) == prefix[k].assets;
          assert prefix[k] == tiers[k];
        }
      }
    }
  }

  /** A non-empty answer is some tier's asset list. */
  lemma {:induction false} QualifyingPicksATier(tiers: seq<Tier>, capital: real)
    ensures Qualifying(tiers, capital) == [] ||
            exists k :: 0 <= k < |tiers| && Qualifying(tiers, capital) == tiers[k].assets
    decreases |tiers|
  {
    if tiers != [] {
      var n := |tiers| - 1;
      if capital < tiers[n].threshold {
        QualifyingPicksATier(tiers[..n], capital);
        if Qualifying(tiers[..n], capital) != [] {
          var k :| 0 <= k < n && Qualifying(tiers[..n], capital) == tiers[..n][k].assets;
          assert tiers[..n][k] == tiers[k];
        }
      }
    }
  }

  /** `get_eligible_assets`: scan the tiers in order, keeping the last one reached. */
  method GetEligibleAssets(currentCapital: real) returns (eligible: seq<string>)
    ensures eligible == Qualifying(CapitalTiers, currentCapital)
  {
    var tiers := CapitalTiers;
    eligible := [];
    for i := 0 to |tiers|
      invariant eligible == Qualifying(tiers[..i], currentCapital)
    {
      assert tiers[..i + 1][..i] == tiers[..i];
      if currentCapital >= tiers[i].threshold {
        eligible := tiers[i].assets;
      }
    }
    assert tiers[..|tiers|] == tiers;
  }

  /** The tier table, read off: under 100 nothing is eligible. */
  lemma {:induction false} EligibleTable(capital: real)
    ensures capital < 100.0 ==> Qualifying(CapitalTiers, capital) == []
    ensures 100.0 <= capital < 200.0 ==> Qualifying(CapitalTiers, capital) == ["DOGE/USDT"]
    ensures 200.0 <= capital < 500.0 ==> Qualifying(CapitalTiers, capital) == ["DOGE/USDT", "SOL/USDT"]
    ensures 500.0 <= capital < 1000.0 ==> Qualifying(CapitalTiers, capital) == ["DOGE/USDT", "SOL/USDT", "ETH/USDT"]
    ensures 1000.0 <= capital ==> Qualifying(CapitalTiers, capital) == ["DOGE/USDT", "SOL/USDT", "ETH/USDT", "BTC/USDT"]
  {
    var t := CapitalTiers;
    assert Ascending(t);
    QualifyingIsLargestTier(t, capital);
    if 100.0 <= capital < 200.0 {
      assert t[0].threshold <= capital && capital < t[1].threshold;
    } else if 200.0 <= capital < 500.0 {
      assert t[1].threshold <= capital && capital < t[2].threshold;
    } else if 500.0 <= capital < 1000.0 {
      assert t[2].threshold <= capital && capital < t[3].threshold;
    } else if 1000.0 <= capital {
      assert t[3].threshold <= capital;
    }
  }

  /** The configured tiers are ascending and nested, so eligibility is monotone in capital. */
  lemma EligibleMonotone(c1: real, c2: real)
    requires c1 <= c2
    ensures forall a :: a in Qualifying(CapitalTiers, c1) ==> a in Qualifying(CapitalTiers, c2)
  {
    QualifyingMonotone(CapitalTiers, c1, c2);
  }

  /** Funding is paid three times a day: the annualised rate in percent. */
  function Apr(fundingRate: real): (apr: real)
    ensures apr == fundingRate * 109500.0
    ensures apr > 0.0 <==> fundingRate > 0.0
  {
    fundingRate * 3.0 * 365.0 * 100.0
  }

  function Sum(xs: seq<real>): real
    decreases |xs|
  {
    if xs == [] then 0.0 else Sum(xs[..|xs| - 1]) + xs[|xs| - 1]
  }

  /** The rolling mean at the last row: the mean APR of the last `window` rates. */
  function RollingAprAvg(rates: seq<real>, window: nat): real
    requires 0 < window <= |rates|
  {
    Sum(AprAll(rates[|rates| - window..])) / window as real
  }

  function AprAll(rates: seq<real>): (aprs: seq<real>)
    ensures |aprs| == |rates|
    ensures forall i :: 0 <= i < |rates| ==> aprs[i] == Apr(rates[i])
    decreases |rates|
  {
    if rates == [] then [] else AprAll(rates[..|rates| - 1]) + [Apr(rates[|rates| - 1])]
  }

  /** The entry condition: enough history, latest APR and rolling mean both strictly above entry. */
  predicate EntryCondition(p: Params, rates: seq<real>)
  {
    0 < p.filterPeriods <= |rates| &&
    Apr(rates[|rates| - 1]) > p.entryApr &&
    RollingAprAvg(rates, p.filterPeriods) > p.entryApr
  }

  /** The asset has parameters, fetched history, and meets its entry condition. */
  predicate Emits(params: map<string, Params>, symbol: string, histories: map<string, seq<real>>)
  {
    symbol in params && Symbols.PerpSymbol(symbol) in histories &&
    EntryCondition(params[symbol], histories[Symbols.PerpSymbol(symbol)])
  }

  /** The signal one eligible asset yields, if any. */
  function SignalFor(params: map<string, Params>, symbol: string, histories: map<string, seq<real>>): (r: seq<Signal>)
    ensures |r| <= 1
    ensures r != [] <==> Emits(params, symbol, histories)
    ensures r != [] ==> r[0].symbol == symbol
    ensures r != [] ==> r[0].currentApr > params[symbol].entryApr
  {
    if symbol !in params then []
    else
      var p := params[symbol];
      var perp := Symbols.PerpSymbol(symbol);
      if perp !in histories then []
      else
        var rates := histories[perp];
        if EntryCondition(p, rates) then [Signal(symbol, Apr(rates[|rates| - 1]))] else []
  }

  /** The signals a scan over `assets` produces, in asset order. */
  function SignalsOver(params: map<string, Params>, assets: seq<string>, histories: map<string, seq<real>>): seq<Signal>
    decreases |assets|
  {
    if assets == [] then []
    else SignalsOver(params, assets[..|assets| - 1], histories) + SignalFor(params, assets[|assets| - 1], histories)
  }

  /** Every emitted signal is for a scanned asset that meets its entry condition. */
  lemma {:induction false} SignalsSound(params: map<string, Params>, assets: seq<string>, histories: map<string, seq<real>>)
    ensures forall s :: s in SignalsOver(params, assets, histories) ==>
              s.symbol in assets && Emits(params, s.symbol, histories) &&
              s.currentApr > params[s.symbol].entryApr
    decreases |assets|
  {
    if assets != [] {
      var n := |assets| - 1;
      SignalsSound(params, assets[..n], histories);
      var here := SignalFor(params, assets[n], histories);
      forall s | s in SignalsOver(params, assets, histories)
        ensures s.symbol in assets && Emits(params, s.symbol, histories)
        ensures s.currentApr > params[s.symbol].entryApr
      {
        if s in SignalsOver(params, assets[..n], histories) {
          assert s.symbol in assets[..n];
        } else {
          assert s in here;
        }
      }
    }
  }

  /** Every scanned asset that meets its entry condition is emitted. */
  lemma {:induction false} SignalsComplete(params: map<string, Params>, assets: seq<string>, histories: map<string, seq<real>>, a: string)
    requires a in assets && Emits(params, a, histories)
    ensures exists s :: s in SignalsOver(params, assets, histories) && s.symbol == a
    decreases |assets|
  {
    var n := |assets| - 1;
    var here := SignalFor(params, assets[n], histories);
    var all := SignalsOver(params, assets, histories);
    assert all == SignalsOver(params, assets[..n], histories) + here;
    if a == assets[n] {
      assert here[0] in all;
    } else {
      assert a in assets[..n];
      SignalsComplete(params, assets[..n], histories, a);
      var s :| s in SignalsOver(params, assets[..n], histories) && s.symbol == a;
      assert s in all;
    }
  }

  /**
   * `check_signals`: scan the eligible assets in order. An asset without
   * parameters, without fetched history, or with fewer rows than its filter
   * window is skipped (a zero window, absent from the table, is skipped too).
   */
  method CheckSignals(currentCapital: real, histories: map<string, seq<real>>) returns (signals: seq<Signal>)
    ensures signals == SignalsOver(OptimalParams, Qualifying(CapitalTiers, currentCapital), histories)
    ensures currentCapital < 100.0 ==> signals == []
  {
    var eligible := GetEligibleAssets(currentCapital);
    if eligible == [] {
      return [];
    }
    var optimalParams := OptimalParams;
    signals := [];
    for i := 0 to |eligible|
      invariant signals == SignalsOver(optimalParams, eligible[..i], histories)
    {
      var symbol := eligible[i];
      assert eligible[..i + 1] == eligible[..i] + [symbol];
      assert SignalsOver(optimalParams, eligible[..i + 1], histories) == signals + SignalFor(optimalParams, symbol, histories);
      if symbol !in optimalParams {
        continue;
      }
      var params := optimalParams[symbol];
      var perpSymbol := Symbols.PerpSymbol(symbol);
      if perpSymbol !in histories {
        continue;
      }
      var history := histories[perpSymbol];
      if params.filterPeriods == 0 || |history| < params.filterPeriods {
        continue;
      }
      var currentApr := Apr(history[|history| - 1]);
      var rollingAvg := RollingAprAvg(history, params.filterPeriods);
      if currentApr > params.entryApr && rollingAvg > params.entryApr {
        signals := signals + [Signal(symbol, currentApr)];
      }
    }
    assert eligible[..|eligible|] == eligible;
    EligibleTable(currentCapital);
  }
}
