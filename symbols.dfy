/**
 * Symbol strings. A spot symbol such as "DOGE/USDT" names its perpetual
 * contract "DOGE/USDT:USDT": the text before the first '/' followed by
 * "/USDT:USDT" (execution.py, strategy.py and data_feed.py all derive it
 * this way).
 */
module Symbols {

  /** Python's `s.split('/')[0]`: the text before the first '/', or all of `s`. */
  function BaseAsset(s: string): (b: string)
    ensures b <= s
    ensures '/' !in b
    ensures |b| < |s| ==> s[|b|] == '/'
  {
    if s == [] || s[0] == '/' then [] else [s[0]] + BaseAsset(s[1..])
  }

  /** The perpetual-contract symbol traded against a spot symbol. */
  function PerpSymbol(s: string): string
  {
    BaseAsset(s) + "/USDT:USDT"
  }

  /** Whatever follows the first '/', the base asset is what precedes it. */
  lemma {:induction false} BaseAssetOfPair(base: string, rest: string)
    requires '/' !in base
    ensures BaseAsset(base + "/" + rest) == base
  {
    if base != [] {
      assert (base + "/" + rest)[1..] == base[1..] + "/" + rest;
      BaseAssetOfPair(base[1..], rest);
    }
  }

  /** A spot pair "B/Q" trades against the perpetual "B/USDT:USDT". */
  lemma PerpSymbolOfPair(base: string, quote: string)
    requires '/' !in base
    ensures PerpSymbol(base + "/" + quote) == base + "/USDT:USDT"
  {
    BaseAssetOfPair(base, quote);
  }

  /** A symbol without any '/' is its own base asset. */
  lemma {:induction false} BaseAssetWithoutSlash(s: string)
    requires '/' !in s
    ensures BaseAsset(s) == s
  {
    if s != [] {
      BaseAssetWithoutSlash(s[1..]);
    }
  }

  /** The worked example of execution.py: "DOGE/USDT" hedges on "DOGE/USDT:USDT". */
  lemma DogePerp()
    ensures PerpSymbol("DOGE/USDT") == "DOGE/USDT:USDT"
  {
    PerpSymbolOfPair("DOGE", "USDT");
  }
}
