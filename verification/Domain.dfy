/** Value objects shared by sizing, the risk gate and the order manager. */
module Domain {
  import opened Common

  datatype Action = Buy | Sell | Hold | Close

  datatype Quote = Quote(bid: Option<real>, ask: Option<real>, last: Option<real>, halted: bool, age: real) {
    predicate TwoSided() {
      bid.Some? && ask.Some? && bid.value > 0.0 && ask.value > 0.0
    }

    function Mid(): Option<real> {
      if TwoSided() then Some((bid.value + ask.value) / 2.0) else last
    }

    predicate Usable() {
      !halted && Mid().Some? && Mid().value > 0.0
    }

    /** Spread over mid; absent without a two-sided market. */
    function SpreadPct(): Option<real> {
      if TwoSided() then Some((ask.value - bid.value) / Mid().value) else None
    }
  }

  datatype Position = Position(quantity: real, avgCost: real, marketPrice: Option<real>) {
    predicate IsLong() { quantity > 0.0 }
  }

  datatype SizedOrder = SizedOrder(
    symbol: string, action: Action, quantity: int, entryPrice: real, stopPrice: real,
    targetPrice: real, riskAmount: real, notional: real, rationale: string)
}
