/** What the sizer makes of a proposal, number by number. */
module SizingFacts {
  import opened Common
  import opened Domain
  import opened Sizing
  import opened Terms

  /** The market if it can be priced, else the last computed price. */
  function PriceNow(f: Features, quote: Option<Quote>): real {
    if quote.Some? && Priceable(quote.value) then MarketPrice(quote.value).value else f.price
  }

  /** The greatest of the ATR multiple, 0.15 percent of the price and one cent. */
  ghost predicate IsStopDistance(p: Proposal, f: Features, d: real) {
    && d >= p.stopAtrMultiple * f.atr && d >= 0.0015 * f.price && d >= 0.01
    && (d == p.stopAtrMultiple * f.atr || d == 0.0015 * f.price || d == 0.01)
  }

  /** Half the risk cap plus half of it by conviction, between half and all of it, but never below the least risk. */
  ghost predicate IsBudget(conviction: real, equity: real, cfg: Limits, budget: real) {
    var cap, least := equity * cfg.maxRisk, equity * cfg.minRisk;
    var scaled := if conviction <= 0.0 then cap * 0.5 else if conviction >= 1.0 then cap
                  else cap * (0.5 + 0.5 * conviction);
    budget == if scaled >= least then scaled else least
  }

  /** `k` shares cost and risk no more than they may. */
  ghost predicate CanAfford(k: int, entry: real, stop: real, budget: real, f: Features, funds: Funds, cfg: Limits) {
    && entry > 0.0
    && k as real * (if entry >= stop then entry - stop else stop - entry) <= budget
    && k as real * entry <= funds.equity * cfg.maxNotional
    && k as real * entry <= funds.buyingPower * (1.0 - cfg.reserve)
    && (f.avgVolume > 0.0 ==> k as real <= 0.005 * f.avgVolume)
  }

  lemma PriceNowIs(f: Features, quote: Option<Quote>)
    ensures ReferencePrice(f, quote) == PriceNow(f, quote)
  {
    if quote.Some? { QuoteTerms(quote.value); }
  }

  lemma DistanceIs(p: Proposal, f: Features)
    ensures IsStopDistance(p, f, StopDistance(p.stopAtrMultiple, f))
  {
  }

  lemma BudgetIs(conviction: real, equity: real, cfg: Limits)
    requires cfg.maxRisk * equity >= 0.0
    ensures IsBudget(conviction, equity, cfg, RiskBudget(conviction, equity, cfg))
  {
    var scalar := ConvictionScalar(conviction);
    assert scalar == if conviction <= 0.0 then 0.5 else if conviction >= 1.0 then 1.0 else 0.5 + 0.5 * conviction;
  }

  lemma AllowedIs(k: int, b: Bracket, budget: real, f: Features, funds: Funds, cfg: Limits)
    ensures Fits(k, budget, b, f, funds, cfg) <==> CanAfford(k, b.entry, b.stop, budget, f, funds, cfg)
  {
  }

  /** Both roundings of a price together are one, to the nearest cent, ties to the even one. */
  lemma TickIsCent(price: real)
    ensures RoundToTick(price) == RoundHalfEven(price * 100.0) as real / 100.0
  {
    var n := RoundHalfEven(price / 0.01);
    assert (n as real * 0.01) * 100.0 == n as real;
    assert RoundHalfEven(n as real) == n;
    assert price / 0.01 == price * 100.0;
  }

  /** Entry off the price, stop one distance against the trade, target the reward with it; to the nearest cent. */
  predicate PricesFrom(isLong: bool, b: Bracket, price: real, offset: real, distance: real, reward: real) {
    if isLong then
      && ToTheCent(b.entry, price + offset) && ToTheCent(b.stop, b.entry - distance)
      && ToTheCent(b.target, b.entry + reward)
    else
      && ToTheCent(b.entry, price - offset) && ToTheCent(b.stop, b.entry + distance)
      && ToTheCent(b.target, b.entry - reward)
  }

  lemma TickedFrom(isLong: bool, price: real, offset: real, distance: real, reward: real, tick: real -> real)
    requires HalfTick(tick)
    ensures PricesFrom(isLong, Priced(isLong, price, offset, distance, reward, tick), price, offset, distance, reward)
  {
  }

  lemma TickedPricesFrom(p: Proposal, f: Features, price: real, offsetPct: real, d: real, tick: real -> real)
    requires HalfTick(tick) && d == StopDistance(p.stopAtrMultiple, f)
    ensures PricesFrom(p.action == Buy, BracketFor(p, f, price, offsetPct, tick), price, price * offsetPct, d,
                       d * p.targetRMultiple)
  {
    var offset, reward := price * offsetPct, d * p.targetRMultiple;
    TickedFrom(p.action == Buy, price, offset, d, reward, tick);
  }

  /** The order's prices are measured from the market by the proposal's own multiples. */
  lemma SizedPricesAre(p: Proposal, f: Features, funds: Funds, quote: Option<Quote>, cfg: Limits, offsetPct: real,
      d: real)
    requires SizeProposal(p, f, funds, quote, cfg, offsetPct, RoundToTick).Some? && IsStopDistance(p, f, d)
    ensures var o := SizeProposal(p, f, funds, quote, cfg, offsetPct, RoundToTick).value;
      PricesFrom(p.action == Buy, Bracket(o.entryPrice, o.stopPrice, o.targetPrice), PriceNow(f, quote),
                 PriceNow(f, quote) * offsetPct, d, d * p.targetRMultiple)
  {
    var _, _ := SizedParts(p, f, funds, quote, cfg, offsetPct, RoundToTick);
    PriceNowIs(f, quote);
    DistanceIs(p, f);
    RoundToTickIsHalfTick();
    TickedPricesFrom(p, f, PriceNow(f, quote), offsetPct, d, RoundToTick);
  }

  lemma SharesAllowed(n: int, budget: real, b: Bracket, f: Features, funds: Funds, cfg: Limits)
    requires b.entry != b.stop && n == Shares(budget, b, f, funds, cfg) >= 1
    ensures CanAfford(n, b.entry, b.stop, budget, f, funds, cfg)
    ensures !CanAfford(n + 1, b.entry, b.stop, budget, f, funds, cfg)
  {
    SharesAreMost(n, budget, b, f, funds, cfg);
    SharesAreMost(n + 1, budget, b, f, funds, cfg);
    AllowedIs(n, b, budget, f, funds, cfg);
    AllowedIs(n + 1, b, budget, f, funds, cfg);
  }

  lemma BudgetIsThis(conviction: real, equity: real, cfg: Limits, budget: real)
    requires equity > 0.0 && cfg.maxRisk >= 0.0 && IsBudget(conviction, equity, cfg, budget)
    ensures budget == RiskBudget(conviction, equity, cfg)
  {
    TimesMonotone(equity, 0.0, cfg.maxRisk);
    BudgetIs(conviction, equity, cfg);
  }

  /** For the proposal's symbol and side, for as many shares as are allowed, at what they come to. */
  ghost predicate IsMost(o: SizedOrder, p: Proposal, budget: real, f: Features, funds: Funds, cfg: Limits) {
    && o.symbol == p.symbol && o.action == p.action && o.quantity >= 1
    && CanAfford(o.quantity, o.entryPrice, o.stopPrice, budget, f, funds, cfg)
    && !CanAfford(o.quantity + 1, o.entryPrice, o.stopPrice, budget, f, funds, cfg)
    && o.notional == o.quantity as real * o.entryPrice
    && o.riskAmount == o.quantity as real * Abs(o.entryPrice - o.stopPrice)
  }

  lemma OrderForIsMost(p: Proposal, b: Bracket, n: int, budget: real, f: Features, funds: Funds, cfg: Limits)
    requires b.entry != b.stop && n == Shares(budget, b, f, funds, cfg) >= 1
    ensures IsMost(OrderFor(p, b, n), p, budget, f, funds, cfg)
  {
    SharesAllowed(n, budget, b, f, funds, cfg);
  }

  /**
   * A sized order is for the proposal's symbol and side and for the most shares that the risk budget, both
   * caps and the volume allow.
   */
  lemma SizedOrderIs(p: Proposal, f: Features, funds: Funds, quote: Option<Quote>, cfg: Limits, offsetPct: real,
      budget: real)
    requires cfg.maxRisk >= 0.0 && SizeProposal(p, f, funds, quote, cfg, offsetPct, RoundToTick).Some?
    requires IsBudget(p.conviction, funds.equity, cfg, budget)
    ensures IsMost(SizeProposal(p, f, funds, quote, cfg, offsetPct, RoundToTick).value, p, budget, f, funds, cfg)
  {
    var b, n := SizedParts(p, f, funds, quote, cfg, offsetPct, RoundToTick);
    BudgetIsThis(p.conviction, funds.equity, cfg, budget);
    OrderForIsMost(p, b, n, budget, f, funds, cfg);
  }
}
