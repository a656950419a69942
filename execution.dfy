/**
 * The two-legged entry of a funding-rate arbitrage trade (src/execution.py):
 * a limit sell on the perpetual contract, a bounded wait for its fill, then a
 * market buy of the same quantity on spot. The handler is a small state
 * machine; the exchange is an oracle whose answers are parameters of
 * `OpenTrade`, and every call made to it is returned as a trace.
 */
module Execution {
  import opened Wrappers
  import Symbols
  import PositionSizer

  /**
   * The handler's states. The source's comment also names EXITING, but no
   * code ever enters it.
   */
  datatype State = Idle | Entering | InPosition | EmergencyClosing

  /** The order produced by the position sizer. */
  type SizedOrder = PositionSizer.SizedTrade

  /** The calls the handler makes on the exchange, in order. */
  datatype ExchangeCall =
    | CreateLimitSellOrder(symbol: string, quantity: real)
    | PollForFill(orderId: string)
    | CancelOrder(orderId: string)
    | CreateMarketBuyOrder(symbol: string, quantity: real)

  /**
   * What polling the perp order reports. `PollRaised` is an exception from
   * the poll itself, which `open_trade` does not catch.
   */
  datatype PollOutcome = Filled | NotFilled | PollRaised

  /** The perp leg is always placed before any spot order. */
  predicate SpotOnlyAfterFill(calls: seq<ExchangeCall>)
  {
    forall k :: 0 <= k < |calls| && calls[k].CreateMarketBuyOrder? ==>
      k >= 2 && calls[k - 2].CreateLimitSellOrder? && calls[k - 1].PollForFill?
  }

  class ExecutionHandler {
    var state: State
    var currentPosition: Option<SizedOrder>

    constructor ()
      ensures state == Idle && currentPosition == None
    {
      state := Idle;
      currentPosition := None;
    }

    function GetState(): State
      reads this
    {
      state
    }

    /**
     * `perpOrder` is the id the exchange gives the limit sell, or None when
     * placing it raises; `poll` is what polling reports; `cancelOk` is false
     * when cancelling the unfilled order raises; `spotOk` is false when
     * placing the spot buy raises. `raised` is true when an exception from
     * the poll or the cancel leaves `open_trade` without a return value:
     * neither call is guarded, so the handler stays ENTERING.
     */
    method OpenTrade(order: SizedOrder, perpOrder: Option<string>, poll: PollOutcome, cancelOk: bool, spotOk: bool)
      returns (success: bool, raised: bool, calls: seq<ExchangeCall>)
      modifies this
      // Only an idle handler starts a trade; otherwise nothing happens.
      ensures old(state) != Idle ==>
                !success && !raised && calls == [] && state == old(state) && currentPosition == old(currentPosition)
      // Success exactly when the handler ends in position, holding the order.
      ensures success ==> state == InPosition && !raised
      ensures old(state) == Idle ==> (success <==> state == InPosition)
      ensures success ==> currentPosition == Some(order)
      ensures !success ==> currentPosition == old(currentPosition)
      // An unguarded exception is the only way to stay ENTERING.
      ensures raised <==> old(state) == Idle && perpOrder.Some? && (poll == PollRaised || (poll == NotFilled && !cancelOk))
      ensures old(state) == Idle ==> (state == Entering <==> raised)
      ensures old(state) == Idle ==> state in {Idle, Entering, InPosition, EmergencyClosing}
      // Placement failure: back to idle after one call.
      ensures old(state) == Idle && perpOrder.None? ==>
                state == Idle && calls == [CreateLimitSellOrder(Symbols.PerpSymbol(order.symbol), order.assetQuantity)]
      // The poll raises: no further call.
      ensures old(state) == Idle && perpOrder.Some? && poll == PollRaised ==>
                calls == [CreateLimitSellOrder(Symbols.PerpSymbol(order.symbol), order.assetQuantity), PollForFill(perpOrder.value)]
      // No fill: the perp order is cancelled and, if that succeeds, the handler is idle again.
      ensures old(state) == Idle && perpOrder.Some? && poll == NotFilled ==>
                (cancelOk ==> state == Idle) &&
                calls == [CreateLimitSellOrder(Symbols.PerpSymbol(order.symbol), order.assetQuantity),
                          PollForFill(perpOrder.value), CancelOrder(perpOrder.value)]
      // Filled: the spot leg follows with the same quantity.
      ensures old(state) == Idle && perpOrder.Some? && poll == Filled ==>
                calls == [CreateLimitSellOrder(Symbols.PerpSymbol(order.symbol), order.assetQuantity),
                          PollForFill(perpOrder.value),
                          CreateMarketBuyOrder(order.symbol, order.assetQuantity)] &&
                state == (if spotOk then InPosition else EmergencyClosing)
      ensures SpotOnlyAfterFill(calls)
    {
      calls := [];
      raised := false;
      if state != Idle {
        return false, raised, calls;
      }
      state := Entering;
      var symbol := order.symbol;
      var perpSymbol := Symbols.PerpSymbol(symbol);
      var quantity := order.assetQuantity;

      // Step 1: the perpetual leg.
      calls := calls + [CreateLimitSellOrder(perpSymbol, quantity)];
      if perpOrder.None? {
        state := Idle;
        return false, raised, calls;
      }
      var perpOrderId := perpOrder.value;

      // Step 2: wait for its fill.
      calls := calls + [PollForFill(perpOrderId)];
      if poll == PollRaised {
        return false, true, calls;
      }
      if poll == NotFilled {
        calls := calls + [CancelOrder(perpOrderId)];
        if !cancelOk {
          return false, true, calls;
        }
        state := Idle;
        return false, raised, calls;
      }

      // Step 3: the spot leg.
      calls := calls + [CreateMarketBuyOrder(symbol, quantity)];
      if !spotOk {
        state := EmergencyClosing;
        return false, raised, calls;
      }

      state := InPosition;
      currentPosition := Some(order);
      return true, raised, calls;
    }
  }

  /**
   * The handler's lifetime as a state machine, each attempt's exception
   * absorbed by the caller: from ENTERING (left by an exception),
   * IN_POSITION or EMERGENCY_CLOSING no attempt ever changes the state again.
   */
  method Attempts(h: ExecutionHandler, order: SizedOrder, outcomes: seq<(Option<string>, PollOutcome, bool, bool)>)
    returns (results: seq<bool>)
    modifies h
    ensures |results| == |outcomes|
    ensures old(h.state) != Idle ==>
              h.state == old(h.state) && forall k :: 0 <= k < |results| ==> !results[k]
    ensures forall k :: 0 <= k < |results| && results[k] ==> forall j :: k < j < |results| ==> !results[j]
  {
    results := [];
    for i := 0 to |outcomes|
      invariant |results| == i
      invariant old(h.state) != Idle ==> h.state == old(h.state)
      invariant old(h.state) != Idle ==> forall k :: 0 <= k < i ==> !results[k]
      invariant (exists k :: 0 <= k < i && results[k]) ==> h.state == InPosition
      invariant forall k :: 0 <= k < i && results[k] ==> forall j :: k < j < i ==> !results[j]
    {
      var (perpOrder, poll, cancelOk, spotOk) := outcomes[i];
      var ok, _, _ := h.OpenTrade(order, perpOrder, poll, cancelOk, spotOk);
      results := results + [ok];
    }
  }

  /** The module's three self-test scenarios. */
  method SelfTest()
  {
    var order := PositionSizer.SizedTrade("DOGE/USDT", 60.0, 400.0, 0.15);

    var happy := new ExecutionHandler();
    var ok1, _, _ := happy.OpenTrade(order, Some("perp-1"), Filled, true, true);
    assert ok1 && happy.GetState() == InPosition;

    var noFill := new ExecutionHandler();
    var ok2, _, calls2 := noFill.OpenTrade(order, Some("perp-2"), NotFilled, true, true);
    assert !ok2 && noFill.GetState() == Idle && calls2[2] == CancelOrder("perp-2");

    var spotFails := new ExecutionHandler();
    var ok3, _, _ := spotFails.OpenTrade(order, Some("perp-3"), Filled, true, false);
    assert !ok3 && spotFails.GetState() == EmergencyClosing;

    var stuck := new ExecutionHandler();
    var ok4, raised4, _ := stuck.OpenTrade(order, Some("perp-4"), PollRaised, true, true);
    assert !ok4 && raised4 && stuck.GetState() == Entering;
    var ok5, _, calls5 := stuck.OpenTrade(order, Some("perp-5"), Filled, true, true);
    assert !ok5 && calls5 == [] && stuck.GetState() == Entering;
  }
}
