/**
 * The numbers the shared predicates read, spelled out field by field, for the results that say what
 * those predicates come to.
 */
module Terms {
  import opened Common
  import opened Domain

  /** A price on both sides of the market. */
  predicate BothSides(q: Quote) {
    q.bid.Some? && q.ask.Some? && q.bid.value > 0.0 && q.ask.value > 0.0
  }

  /** A quote to price from: trading, and with two sides or a positive last trade. */
  predicate Priceable(q: Quote) {
    !q.halted && (BothSides(q) || (q.last.Some? && q.last.value > 0.0))
  }

  /** Half way between two sides, else the last trade. */
  function MarketPrice(q: Quote): Option<real> {
    if BothSides(q) then Some((q.bid.value + q.ask.value) / 2.0) else q.last
  }

  /** `x` is `y` to the nearest cent. */
  predicate ToTheCent(x: real, y: real) { -0.005 <= x - y <= 0.005 }

  lemma QuoteTerms(q: Quote)
    ensures q.Mid() == MarketPrice(q) && (q.Usable() <==> Priceable(q))
    ensures Priceable(q) ==> MarketPrice(q).Some? && MarketPrice(q).value > 0.0
  {
  }
}
