/** Turning a proposal into prices and a share count, and the gate's own recomputation of the limits. */
module Sizing {
  import opened Common
  import opened Domain

  datatype Proposal = Proposal(
    symbol: string, action: Action, conviction: real, stopAtrMultiple: real, targetRMultiple: real, rationale: string)

  datatype Features = Features(price: real, atr: real, avgVolume: real)

  datatype Funds = Funds(equity: real, buyingPower: real)

  /** The limits on one order. */
  datatype Limits = Limits(
    maxRisk: real, minRisk: real, maxNotional: real, reserve: real, collar: real)

  /** What the configuration validator guarantees. */
  ghost predicate Validated(cfg: Limits) {
    0.0 < cfg.minRisk <= cfg.maxRisk && cfg.maxNotional > 0.0 && 0.0 <= cfg.reserve < 1.0
  }

  // ------------------------------------------------------------------ the sizer

  function ConvictionScalar(conviction: real): (s: real)
    ensures 0.5 <= s <= 1.0
  {
    Max(0.5, Min(1.0, 0.5 + 0.5 * conviction))
  }

  function StopDistance(atrMultiple: real, f: Features): (d: real)
    ensures d >= 0.01 && d >= f.price * 0.0015
  {
    Max(Max(atrMultiple * f.atr, f.price * 0.0015), 0.01)
  }

  function RoundToTick(price: real): real {
    RoundCents(RoundHalfEven(price / 0.01) as real * 0.01)
  }

  /** The live mid when there is a usable quote, else the last computed price. */
  function ReferencePrice(f: Features, quote: Option<Quote>): real {
    if quote.Some? && quote.value.Usable() then quote.value.Mid().value else f.price
  }

  datatype Bracket = Bracket(entry: real, stop: real, target: real)

  /** A marketable limit entry, with stop and target at distances from it. */
  function Priced(isLong: bool, price: real, offset: real, distance: real, reward: real, tick: real -> real): Bracket {
    var entry := tick(if isLong then price + offset else price - offset);
    Bracket(entry,
            tick(if isLong then entry - distance else entry + distance),
            tick(if isLong then entry + reward else entry - reward))
  }

  function BracketFor(p: Proposal, f: Features, price: real, offsetPct: real, tick: real -> real): Bracket {
    var distance := StopDistance(p.stopAtrMultiple, f);
    Priced(p.action == Buy, price, price * offsetPct, distance, distance * p.targetRMultiple, tick)
  }

  predicate Sided(isLong: bool, b: Bracket) {
    if isLong then b.stop < b.entry < b.target else b.target < b.entry < b.stop
  }

  /** The money put at risk: a scaled cap, but never below the configured minimum. */
  function BudgetOf(scalar: real, cap: real, least: real): real { Max(cap * scalar, least) }

  function RiskBudget(conviction: real, equity: real, cfg: Limits): real {
    BudgetOf(ConvictionScalar(conviction), RiskCap(equity, cfg), RiskLeast(equity, cfg))
  }

  function RiskLeast(equity: real, cfg: Limits): real { equity * cfg.minRisk }

  function RiskCap(equity: real, cfg: Limits): real { equity * cfg.maxRisk }

  function Lesser(a: int, b: int): int { if a <= b then a else b }

  /** Whole shares a sum of money buys; none at a price that is not positive. */
  function Affordable(money: real, price: real): int {
    if price > 0.0 then (money / price).Floor else 0
  }

  function NotionalCap(funds: Funds, cfg: Limits): real { funds.equity * cfg.maxNotional }

  function UsablePower(funds: Funds, cfg: Limits): real { funds.buyingPower * (1.0 - cfg.reserve) }

  /** Shares by risk, then clamped by exposure, by buying power and by the symbol's own volume. */
  function Shares(budget: real, b: Bracket, f: Features, funds: Funds, cfg: Limits): int
    requires b.entry != b.stop
  {
    var byRisk := (budget / Abs(b.entry - b.stop)).Floor;
    var byNotional := Affordable(NotionalCap(funds, cfg), b.entry);
    var byPower := Affordable(UsablePower(funds, cfg), b.entry);
    var clamped := Lesser(Lesser(byRisk, byNotional), byPower);
    if f.avgVolume > 0.0 then Lesser(clamped, (f.avgVolume * 0.005).Floor) else clamped
  }

  function OrderFor(p: Proposal, b: Bracket, shares: int): SizedOrder {
    SizedOrder(p.symbol, p.action, shares, b.entry, b.stop, b.target,
               shares as real * Abs(b.entry - b.stop), shares as real * b.entry, p.rationale)
  }

  /**
   * `size_proposal`: a fully specified order, or none when it cannot be sized sensibly. The source's
   * `tick` is `RoundToTick`.
   */
  function SizeProposal(p: Proposal, f: Features, funds: Funds, quote: Option<Quote>, cfg: Limits, offsetPct: real,
      tick: real -> real)
    : Option<SizedOrder>
  {
    var price := ReferencePrice(f, quote);
    if p.action != Buy && p.action != Sell then None
    else if funds.equity <= 0.0 || price <= 0.0 then None
    else
      var b := BracketFor(p, f, price, offsetPct, tick);
      if !Sided(p.action == Buy, b) then None
      else
        var shares := Shares(RiskBudget(p.conviction, funds.equity, cfg), b, f, funds, cfg);
        if shares < 1 then None
        else Some(OrderFor(p, b, shares))
  }

  // ------------------------------------------------------------------ the gate's checks on one order

  /** Check 8. */
  predicate QuantityOk(o: SizedOrder) { o.quantity >= 1 }

  /** Check 9: the limit price is close to the market. */
  predicate CollarOk(o: SizedOrder, quote: Option<Quote>, cfg: Limits) {
    quote.Some? && quote.value.Mid().Some? && quote.value.Mid().value != 0.0 ==>
      Abs(o.entryPrice - quote.value.Mid().value) / quote.value.Mid().value <= cfg.collar
  }

  /** Check 12, with its two percent tolerance. */
  predicate RiskOk(o: SizedOrder, funds: Funds, cfg: Limits) {
    Abs(o.entryPrice - o.stopPrice) * o.quantity as real <= RiskCap(funds.equity, cfg) * 1.02
  }

  /** Check 13, with its two percent tolerance. */
  predicate NotionalOk(o: SizedOrder, funds: Funds, cfg: Limits) {
    o.notional <= NotionalCap(funds, cfg) * 1.02
  }

  /** Check 14. */
  predicate BuyingPowerOk(o: SizedOrder, funds: Funds, cfg: Limits) {
    o.notional <= UsablePower(funds, cfg)
  }

  // ------------------------------------------------------------------ sizing against the gate

  lemma TimesMonotone(k: real, x: real, y: real)
    requires k >= 0.0 && x <= y
    ensures k * x <= k * y
  {
    assert k * (y - x) >= 0.0;
  }

  lemma TimesStrict(k: real, x: real, y: real)
    requires k > 0.0 && x < y
    ensures k * x < k * y
  {
    assert k * (y - x) > 0.0;
  }

  lemma TimesCompare(q: real, most: real, d: real)
    requires d > 0.0
    ensures q <= most <==> q * d <= most * d
  {
    if q <= most { TimesMonotone(d, q, most); } else { TimesStrict(d, most, q); }
  }

  lemma ShareAtMost(x: real, d: real, most: real)
    requires d > 0.0
    ensures x / d <= most <==> x <= most * d
  {
    TimesCompare(x / d, most, d);
    assert (x / d) * d == x;
  }

  lemma ShareAtLeast(x: real, d: real, most: real)
    requires d < 0.0
    ensures x / d <= most <==> x >= most * d
  {
    TimesCompare(x / d, most, -d);
    assert (x / d) * d == x;
  }

  lemma DivideMonotone(x: real, y: real, d: real)
    requires d > 0.0 && x <= y
    ensures x / d <= y / d
  {
    var a, b := x / d, y / d;
    assert a * d == x && b * d == y;
    if a > b {
      TimesGrows(a - b, d);
      assert false;
    }
  }

  lemma TimesGrows(x: real, y: real)
    requires x > 0.0 && y > 0.0
    ensures x * y > 0.0
  {
  }

  lemma CapAboveLeast(equity: real, cfg: Limits)
    requires equity > 0.0 && Validated(cfg)
    ensures 0.0 < RiskLeast(equity, cfg) <= RiskCap(equity, cfg)
  {
    TimesGrows(equity, cfg.minRisk);
    TimesMonotone(equity, cfg.minRisk, cfg.maxRisk);
  }

  /** The risk budget never exceeds the cap and never falls with conviction. */
  lemma BudgetBounds(low: real, high: real, cap: real, least: real)
    requires 0.0 < least <= cap && 0.5 <= low <= high <= 1.0
    ensures BudgetOf(low, cap, least) <= BudgetOf(high, cap, least) <= cap
  {
    TimesMonotone(cap, low, high);
    TimesMonotone(cap, high, 1.0);
  }

  lemma FloorExactly(x: real, d: real, n: int)
    requires d > 0.0
    ensures n <= (x / d).Floor <==> n as real * d <= x
  {
    var q := x / d;
    assert q * d == x;
    if n as real <= q {
      TimesMonotone(d, n as real, q);
    } else {
      TimesStrict(d, q, n as real);
    }
  }

  /** A share count every clamp allows. */
  predicate Fits(k: int, budget: real, b: Bracket, f: Features, funds: Funds, cfg: Limits) {
    && b.entry > 0.0
    && k as real * Abs(b.entry - b.stop) <= budget
    && k as real * b.entry <= NotionalCap(funds, cfg)
    && k as real * b.entry <= UsablePower(funds, cfg)
    && (f.avgVolume > 0.0 ==> k as real <= f.avgVolume * 0.005)
  }

  /** The sizer takes the most shares that respect the risk budget, both caps and the volume share. */
  lemma SharesAreMost(k: int, budget: real, b: Bracket, f: Features, funds: Funds, cfg: Limits)
    requires b.entry != b.stop && k >= 1
    ensures k <= Shares(budget, b, f, funds, cfg) <==> Fits(k, budget, b, f, funds, cfg)
  {
    if b.entry > 0.0 {
      FloorExactly(budget, Abs(b.entry - b.stop), k);
      FloorExactly(NotionalCap(funds, cfg), b.entry, k);
      FloorExactly(UsablePower(funds, cfg), b.entry, k);
    }
  }

  /** What a returned order is made of. */
  lemma SizedParts(p: Proposal, f: Features, funds: Funds, quote: Option<Quote>, cfg: Limits, offsetPct: real,
      tick: real -> real)
    returns (b: Bracket, n: int)
    requires SizeProposal(p, f, funds, quote, cfg, offsetPct, tick).Some?
    ensures funds.equity > 0.0 && ReferencePrice(f, quote) > 0.0
    ensures b == BracketFor(p, f, ReferencePrice(f, quote), offsetPct, tick) && Sided(p.action == Buy, b)
    ensures n == Shares(RiskBudget(p.conviction, funds.equity, cfg), b, f, funds, cfg) >= 1
    ensures SizeProposal(p, f, funds, quote, cfg, offsetPct, tick)
         == Some(OrderFor(p, b, n))
  {
    b := BracketFor(p, f, ReferencePrice(f, quote), offsetPct, tick);
    n := Shares(RiskBudget(p.conviction, funds.equity, cfg), b, f, funds, cfg);
  }

  lemma SizedSymbol(p: Proposal, f: Features, funds: Funds, quote: Option<Quote>, cfg: Limits, offsetPct: real,
      tick: real -> real)
    requires SizeProposal(p, f, funds, quote, cfg, offsetPct, tick).Some?
    ensures SizeProposal(p, f, funds, quote, cfg, offsetPct, tick).value.symbol == p.symbol
  {
    var _, _ := SizedParts(p, f, funds, quote, cfg, offsetPct, tick);
  }

  lemma Loosened(x: real, cap: real)
    requires 0.0 <= x <= cap
    ensures x <= cap * 1.02
  {
  }

  /** Checks 8, 12, 13 and 14, the caps even without the gate's tolerance. */
  predicate WithinLimits(o: SizedOrder, funds: Funds, cfg: Limits) {
    && QuantityOk(o) && RiskOk(o, funds, cfg) && NotionalOk(o, funds, cfg) && BuyingPowerOk(o, funds, cfg)
    && o.riskAmount <= RiskCap(funds.equity, cfg) && o.notional <= NotionalCap(funds, cfg)
  }

  lemma OrderPasses(p: Proposal, b: Bracket, n: int, funds: Funds, cfg: Limits)
    requires n >= 1 && b.entry > 0.0
    requires n as real * Abs(b.entry - b.stop) <= RiskCap(funds.equity, cfg)
    requires n as real * b.entry <= NotionalCap(funds, cfg) && n as real * b.entry <= UsablePower(funds, cfg)
    ensures WithinLimits(OrderFor(p, b, n), funds, cfg)
  {
    TimesMonotone(n as real, 0.0, Abs(b.entry - b.stop));
    TimesGrows(n as real, b.entry);
    Loosened(n as real * Abs(b.entry - b.stop), RiskCap(funds.equity, cfg));
    Loosened(n as real * b.entry, NotionalCap(funds, cfg));
  }

  lemma BracketPasses(p: Proposal, f: Features, b: Bracket, budget: real, funds: Funds, cfg: Limits)
    requires b.entry != b.stop && budget <= RiskCap(funds.equity, cfg) && Shares(budget, b, f, funds, cfg) >= 1
    ensures WithinLimits(OrderFor(p, b, Shares(budget, b, f, funds, cfg)), funds, cfg)
    ensures f.avgVolume > 0.0 ==> Shares(budget, b, f, funds, cfg) as real <= f.avgVolume * 0.005
  {
    SharesAreMost(Shares(budget, b, f, funds, cfg), budget, b, f, funds, cfg);
    OrderPasses(p, b, Shares(budget, b, f, funds, cfg), funds, cfg);
  }

  lemma BudgetCapped(conviction: real, equity: real, cfg: Limits)
    requires equity > 0.0 && Validated(cfg)
    ensures RiskBudget(conviction, equity, cfg) <= RiskCap(equity, cfg)
  {
    CapAboveLeast(equity, cfg);
    var scalar := ConvictionScalar(conviction);
    BudgetBounds(scalar, scalar, RiskCap(equity, cfg), RiskLeast(equity, cfg));
  }

  /**
   * Every order the sizer returns has its stop and target on the right sides and passes the checks the
   * gate recomputes for itself, for the same account and limits; the risk and exposure caps even
   * without the gate's tolerance, whatever the tick rounding.
   */
  lemma SizedPassesGate(p: Proposal, f: Features, funds: Funds, quote: Option<Quote>, cfg: Limits, offsetPct: real,
      tick: real -> real)
    requires Validated(cfg) && SizeProposal(p, f, funds, quote, cfg, offsetPct, tick).Some?
    ensures var o := SizeProposal(p, f, funds, quote, cfg, offsetPct, tick).value;
      && WithinLimits(o, funds, cfg)
      && Sided(o.action == Buy, Bracket(o.entryPrice, o.stopPrice, o.targetPrice))
      && (f.avgVolume > 0.0 ==> o.quantity as real <= f.avgVolume * 0.005)
  {
    var b, n := SizedParts(p, f, funds, quote, cfg, offsetPct, tick);
    BudgetCapped(p.conviction, funds.equity, cfg);
    BracketPasses(p, f, b, RiskBudget(p.conviction, funds.equity, cfg), funds, cfg);
  }

  predicate Sizeable(p: Proposal, f: Features, funds: Funds, quote: Option<Quote>, cfg: Limits, b: Bracket) {
    && (p.action == Buy || p.action == Sell) && funds.equity > 0.0 && ReferencePrice(f, quote) > 0.0
    && Sided(p.action == Buy, b)
    && Fits(1, RiskBudget(p.conviction, funds.equity, cfg), b, f, funds, cfg)
  }

  /**
   * An order comes back exactly when the action is an entry, equity and price are positive, the bracket is
   * the right way round and one share fits; it is then for the most shares that fit.
   */
  lemma SizedExactlyWhen(p: Proposal, f: Features, funds: Funds, quote: Option<Quote>, cfg: Limits, offsetPct: real,
      tick: real -> real)
    ensures SizeProposal(p, f, funds, quote, cfg, offsetPct, tick).Some?
       <==> Sizeable(p, f, funds, quote, cfg, BracketFor(p, f, ReferencePrice(f, quote), offsetPct, tick))
    ensures var o := SizeProposal(p, f, funds, quote, cfg, offsetPct, tick);
      var b := BracketFor(p, f, ReferencePrice(f, quote), offsetPct, tick);
      var budget := RiskBudget(p.conviction, funds.equity, cfg);
      o.Some? ==>
        Fits(o.value.quantity, budget, b, f, funds, cfg) && !Fits(o.value.quantity + 1, budget, b, f, funds, cfg)
  {
    var b := BracketFor(p, f, ReferencePrice(f, quote), offsetPct, tick);
    var budget := RiskBudget(p.conviction, funds.equity, cfg);
    if Sided(p.action == Buy, b) {
      SharesAreMost(1, budget, b, f, funds, cfg);
      if SizeProposal(p, f, funds, quote, cfg, offsetPct, tick).Some? {
        var _, n := SizedParts(p, f, funds, quote, cfg, offsetPct, tick);
        SharesAreMost(n, budget, b, f, funds, cfg);
        SharesAreMost(n + 1, budget, b, f, funds, cfg);
      }
    }
  }

  lemma SharesMonotone(low: real, high: real, b: Bracket, f: Features, funds: Funds, cfg: Limits)
    requires b.entry != b.stop && low <= high
    ensures Shares(low, b, f, funds, cfg) <= Shares(high, b, f, funds, cfg)
  {
    var d := Abs(b.entry - b.stop);
    DivideMonotone(low, high, d);
    assert (low / d).Floor <= (high / d).Floor;
  }

  /** More conviction never means fewer shares: what is sized stays sized, at the same prices. */
  lemma ConvictionMonotone(p: Proposal, more: real, f: Features, funds: Funds, quote: Option<Quote>, cfg: Limits,
      offsetPct: real, tick: real -> real)
    requires Validated(cfg) && p.conviction <= more
    requires SizeProposal(p, f, funds, quote, cfg, offsetPct, tick).Some?
    ensures var o := SizeProposal(p, f, funds, quote, cfg, offsetPct, tick).value;
      var o' := SizeProposal(p.(conviction := more), f, funds, quote, cfg, offsetPct, tick);
      && o'.Some? && o'.value.quantity >= o.quantity
      && o'.value.entryPrice == o.entryPrice && o'.value.stopPrice == o.stopPrice
      && o'.value.targetPrice == o.targetPrice
  {
    var b, n := SizedParts(p, f, funds, quote, cfg, offsetPct, tick);
    assert BracketFor(p.(conviction := more), f, ReferencePrice(f, quote), offsetPct, tick) == b;
    CapAboveLeast(funds.equity, cfg);
    BudgetBounds(ConvictionScalar(p.conviction), ConvictionScalar(more), RiskCap(funds.equity, cfg),
                 RiskLeast(funds.equity, cfg));
    SharesMonotone(RiskBudget(p.conviction, funds.equity, cfg), RiskBudget(more, funds.equity, cfg), b, f, funds, cfg);
  }

  /** Rounding moves a price by at most half a tick. */
  ghost predicate HalfTick(tick: real -> real) {
    forall x :: -0.005 <= tick(x) - x <= 0.005
  }

  lemma TickError(price: real)
    ensures -0.005 <= RoundToTick(price) - price <= 0.005
  {
    var n := RoundHalfEven(price / 0.01);
    assert (n as real * 0.01) * 100.0 == n as real;
    assert RoundHalfEven(n as real) == n;
    assert RoundToTick(price) == n as real / 100.0;
    assert price / 0.01 == price * 100.0;
  }

  /** Both roundings of the source together are one rounding to the nearest cent. */
  lemma RoundToTickIsHalfTick()
    ensures HalfTick(RoundToTick)
  {
    forall x ensures -0.005 <= RoundToTick(x) - x <= 0.005 { TickError(x); }
  }

  lemma DivideBound(x: real, mid: real, k: real, e: real)
    requires mid > 0.0 && x <= mid * k + e
    ensures x / mid <= k + e / mid
  {
    DivideMonotone(x, mid * k + e, mid);
    assert (mid * k + e) / mid == k + e / mid;
  }

  lemma OffsetSize(mid: real, k: real)
    requires mid > 0.0
    ensures Abs(mid * k) == mid * Abs(k)
  {
    if k < 0.0 { TimesGrows(mid, -k); } else if k > 0.0 { TimesGrows(mid, k); }
  }

  /** An entry priced from the quote is within the offset and half a tick of the mid. */
  lemma EntryNearMid(p: Proposal, f: Features, mid: real, offsetPct: real, tick: real -> real)
    requires mid > 0.0 && HalfTick(tick)
    ensures Abs(BracketFor(p, f, mid, offsetPct, tick).entry - mid) <= mid * Abs(offsetPct) + 0.005
  {
    var offset := mid * offsetPct;
    OffsetSize(mid, offsetPct);
    var raw := if p.action == Buy then mid + offset else mid - offset;
    assert -0.005 <= tick(raw) - raw <= 0.005;
  }

  lemma TickedWithinCollar(p: Proposal, f: Features, funds: Funds, quote: Option<Quote>, cfg: Limits, offsetPct: real,
      tick: real -> real)
    requires SizeProposal(p, f, funds, quote, cfg, offsetPct, tick).Some?
    requires HalfTick(tick) && quote.Some? && quote.value.Usable()
    requires Abs(offsetPct) + 0.005 / quote.value.Mid().value <= cfg.collar
    ensures CollarOk(SizeProposal(p, f, funds, quote, cfg, offsetPct, tick).value, quote, cfg)
  {
    var mid := quote.value.Mid().value;
    var b, n := SizedParts(p, f, funds, quote, cfg, offsetPct, tick);
    EntryNearMid(p, f, mid, offsetPct, tick);
    DivideBound(Abs(b.entry - mid), mid, Abs(offsetPct), 0.005);
  }

  /**
   * Priced from the quote, an order passes the price collar whenever the offset plus half a tick,
   * relative to the mid, is within it.
   */
  lemma SizedWithinCollar(p: Proposal, f: Features, funds: Funds, quote: Option<Quote>, cfg: Limits, offsetPct: real)
    requires SizeProposal(p, f, funds, quote, cfg, offsetPct, RoundToTick).Some?
    requires quote.Some? && quote.value.Usable()
    requires Abs(offsetPct) + 0.005 / quote.value.Mid().value <= cfg.collar
    ensures CollarOk(SizeProposal(p, f, funds, quote, cfg, offsetPct, RoundToTick).value, quote, cfg)
  {
    RoundToTickIsHalfTick();
    TickedWithinCollar(p, f, funds, quote, cfg, offsetPct, RoundToTick);
  }
}
