/**
 * The data-feed connection manager (src/data_feed.py): a connection status,
 * a reconnect counter with exponential back-off and a hard stop after five
 * attempts, a guarded fetch of funding-rate history, and a sanity scan of
 * the rates. The exchange fetch is an input map keyed by perpetual symbol
 * (a missing key stands for a fetch that raised); the sleep is returned as
 * its length in seconds; notifier messages are not modelled.
 */
module DataFeed {
  import opened Wrappers
  import Symbols

  datatype Status = Connected | Disconnected

  /** What a disconnect leads to: a reconnect after a wait, or SystemExit. */
  datatype Recovery = Reconnected(waitSeconds: nat) | Shutdown

  /** What a fetch leads to, SystemExit from the recovery path included. */
  datatype FetchOutcome =
    | Fetched(history: seq<real>, suspicious: bool)
    | NotConnected
    | FetchFailed(recovery: Recovery)

  const MaxReconnects: nat := 5

  /** A rate is suspicious when its magnitude is strictly above 1%. */
  const SuspiciousRate: real := 0.01

  function Pow2(n: nat): (p: nat)
    ensures p >= 1
  {
    if n == 0 then 1 else 2 * Pow2(n - 1)
  }

  function Abs(x: real): real
  {
    if x < 0.0 then -x else x
  }

  /** Every rate's magnitude is at most 1% (inclusive). */
  predicate AllRatesSane(rates: seq<real>)
  {
    forall i :: 0 <= i < |rates| ==> Abs(rates[i]) <= SuspiciousRate
  }

  /**
   * `validate_funding_rates`: stops at the first suspicious rate. False
   * exactly when some rate's magnitude exceeds 1%.
   */
  method ValidateFundingRates(rates: seq<real>) returns (ok: bool)
    ensures ok <==> AllRatesSane(rates)
    ensures !ok <==> exists i :: 0 <= i < |rates| && Abs(rates[i]) > SuspiciousRate
  {
    for i := 0 to |rates|
      invariant forall j :: 0 <= j < i ==> Abs(rates[j]) <= SuspiciousRate
    {
      if Abs(rates[i]) > SuspiciousRate {
        return false;
      }
    }
    return true;
  }

  class DataFeedManager {
    var reconnectAttempts: nat
    var connectionStatus: Status

    /** The counter never passes the maximum. */
    ghost predicate Valid()
      reads this
    {
      reconnectAttempts <= MaxReconnects
    }

    constructor ()
      ensures Valid()
      ensures reconnectAttempts == 0 && connectionStatus == Disconnected
    {
      reconnectAttempts := 0;
      connectionStatus := Disconnected;
    }

    method Connect() returns (ok: bool)
      modifies this
      ensures ok
      ensures connectionStatus == Connected && reconnectAttempts == 0
      ensures Valid()
    {
      connectionStatus := Connected;
      reconnectAttempts := 0;
      return true;
    }

    /**
     * Below the maximum: count the attempt, wait 2^attempts seconds and
     * reconnect (which resets the counter). At the maximum: SystemExit,
     * with nothing changed.
     */
    method HandleDisconnect() returns (r: Recovery)
      modifies this
      ensures old(reconnectAttempts) < MaxReconnects ==>
                r == Reconnected(Pow2(old(reconnectAttempts) + 1)) &&
                connectionStatus == Connected && reconnectAttempts == 0
      ensures old(reconnectAttempts) >= MaxReconnects ==>
                r == Shutdown && connectionStatus == old(connectionStatus) &&
                reconnectAttempts == old(reconnectAttempts)
      ensures old(Valid()) ==> Valid()
    {
      if reconnectAttempts < MaxReconnects {
        reconnectAttempts := reconnectAttempts + 1;
        var waitTime := Pow2(reconnectAttempts);
        var _ := Connect();
        return Reconnected(waitTime);
      } else {
        return Shutdown;
      }
    }

    method Disconnect() returns (r: Recovery)
      modifies this
      ensures old(reconnectAttempts) < MaxReconnects ==>
                r == Reconnected(Pow2(old(reconnectAttempts) + 1)) &&
                connectionStatus == Connected && reconnectAttempts == 0
      ensures old(reconnectAttempts) >= MaxReconnects ==>
                r == Shutdown && connectionStatus == Disconnected &&
                reconnectAttempts == old(reconnectAttempts)
      ensures old(Valid()) ==> Valid()
    {
      connectionStatus := Disconnected;
      r := HandleDisconnect();
    }

    /**
     * `get_funding_rate_data`. Nothing is fetched unless connected. A
     * fetched history is returned even when suspicious; a failed fetch
     * disconnects (and so runs the recovery) and yields no data.
     */
    method GetFundingRateData(symbol: string, exchange: map<string, seq<real>>) returns (r: FetchOutcome)
      modifies this
      ensures old(connectionStatus) != Connected ==>
                r == NotConnected && connectionStatus == old(connectionStatus) &&
                reconnectAttempts == old(reconnectAttempts)
      ensures old(connectionStatus) == Connected && Symbols.PerpSymbol(symbol) in exchange ==>
                r == Fetched(exchange[Symbols.PerpSymbol(symbol)], !AllRatesSane(exchange[Symbols.PerpSymbol(symbol)])) &&
                connectionStatus == old(connectionStatus) && reconnectAttempts == old(reconnectAttempts)
      ensures old(connectionStatus) == Connected && Symbols.PerpSymbol(symbol) !in exchange ==>
                r.FetchFailed? &&
                (old(reconnectAttempts) < MaxReconnects ==>
                   r.recovery == Reconnected(Pow2(old(reconnectAttempts) + 1)) && reconnectAttempts == 0) &&
                (old(reconnectAttempts) >= MaxReconnects ==> r.recovery == Shutdown)
      ensures old(Valid()) ==> Valid()
    {
      if connectionStatus != Connected {
        return NotConnected;
      }
      var perpSymbol := Symbols.PerpSymbol(symbol);
      if perpSymbol !in exchange {
        var recovery := Disconnect();
        return FetchFailed(recovery);
      }
      var history := exchange[perpSymbol];
      var sane := ValidateFundingRates(history);
      return Fetched(history, !sane);
    }
  }

  /**
   * Because a reconnect always resets the counter, a manager that starts
   * from zero waits 2 seconds on every disconnect and never shuts down,
   * however many disconnects happen in a row.
   */
  method RepeatedDisconnects(feed: DataFeedManager, k: nat) returns (waits: seq<Recovery>)
    requires feed.reconnectAttempts == 0
    modifies feed
    ensures |waits| == k
    ensures forall i :: 0 <= i < k ==> waits[i] == Reconnected(2)
    ensures feed.reconnectAttempts == 0 && feed.connectionStatus == (if k == 0 then old(feed.connectionStatus) else Connected)
  {
    waits := [];
    for i := 0 to k
      invariant |waits| == i
      invariant feed.reconnectAttempts == 0
      invariant forall j :: 0 <= j < i ==> waits[j] == Reconnected(2)
      invariant feed.connectionStatus == (if i == 0 then old(feed.connectionStatus) else Connected)
    {
      var r := feed.Disconnect();
      waits := waits + [r];
    }
  }

  /** The self-test: connect, fetch DOGE, simulate a disconnect, fetch ETH again. */
  method SelfTest()
  {
    var exchange := map["DOGE/USDT:USDT" := [0.0001, 0.0002], "ETH/USDT:USDT" := [0.0001]];
    var feed := new DataFeedManager();
    var r0 := feed.GetFundingRateData("DOGE/USDT", exchange);
    assert r0 == NotConnected;
    var _ := feed.Connect();
    assert Symbols.PerpSymbol("DOGE/USDT") == "DOGE/USDT:USDT" by { Symbols.DogePerp(); }
    var r1 := feed.GetFundingRateData("DOGE/USDT", exchange);
    assert r1.Fetched? && |r1.history| > 0;
    var w := feed.Disconnect();
    assert w == Reconnected(2) && feed.connectionStatus == Connected;
  }
}
