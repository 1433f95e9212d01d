/** What the risk gate asks of an order, number by number, and which reason a refusal carries. */
module GateFacts {
  import opened Common
  import opened Domain
  import opened Sizing
  import opened RiskGate
  import opened Terms

  // ------------------------------------------------------------------ the account and the limits, spelled out

  /** An id that starts with DU or DF, in either case. */
  predicate PaperId(id: string) {
    |id| >= 2 && id[0] in ['D', 'd'] && id[1] in ['U', 'u', 'F', 'f']
  }

  predicate Trading(phase: Phase) { phase == OpeningRange || phase == Rth || phase == Closing }

  predicate Holds(account: Account, symbol: string) {
    symbol in account.positions && account.positions[symbol].quantity != 0.0
  }

  predicate HoldsLong(account: Account, symbol: string) {
    symbol in account.positions && account.positions[symbol].quantity > 0.0
  }

  predicate HoldsShort(account: Account, symbol: string) {
    symbol in account.positions && account.positions[symbol].quantity < 0.0
  }

  function HeldSymbols(account: Account): set<string> {
    set s | s in account.positions && account.positions[s].quantity != 0.0
  }

  /** More than `most` of the market price away from it, as a share of a price that may be negative. */
  predicate FarFrom(price: real, market: real, most: real) {
    if market > 0.0 then Abs(price - market) > most * market else market < 0.0 && Abs(price - market) < most * market
  }

  /** Less than `span` seconds have passed since the time noted for a symbol. */
  predicate TooSoon(noted: map<string, real>, symbol: string, span: real, now: real) {
    symbol in noted && noted[symbol] + span > now
  }

  // ------------------------------------------------------------------ the checks, in order

  /** The first of the checks 1 to 6 that fails. */
  function StandingReason(ctx: Context, cfg: GateConfig, killed: bool): Option<Reason> {
    if killed then Some(KillSwitch)
    else if ctx.isLive && PaperId(ctx.account.id) then Some(ModeInterlock)
    else if !ctx.isLive && ctx.account.id != "" && !PaperId(ctx.account.id) then Some(ModeInterlock)
    else if !Trading(ctx.phase) then Some(MarketClosed)
    else if ctx.minutesToClose <= cfg.noEntryMinutes then Some(TooLate)
    else if ctx.accountAge > cfg.maxAccountAge then Some(StaleAccount)
    else if ctx.decisionAge > cfg.maxDecisionAge then Some(StaleData)
    else None
  }

  /** Check 7. */
  function QuoteReason(quote: Option<Quote>, cfg: GateConfig): Option<Reason> {
    if quote.None? then Some(NoMarketData)
    else
      var q := quote.value;
      if q.halted then Some(Halted)
      else if !Priceable(q) then Some(NoMarketData)
      else if q.age > cfg.maxQuoteAge then Some(StaleData)
      else if BothSides(q) && q.ask.value - q.bid.value > cfg.maxSpread * ((q.bid.value + q.ask.value) / 2.0)
        then Some(SpreadTooWide)
      else None
  }

  /** Checks 8 to 14. */
  function OrderReason(o: SizedOrder, ctx: Context, cfg: GateConfig): Option<Reason> {
    var funds, limits := ctx.account.funds, cfg.limits;
    if o.quantity < 1 then Some(ZeroQuantity)
    else if ctx.quote.Some? && MarketPrice(ctx.quote.value).Some?
            && FarFrom(o.entryPrice, MarketPrice(ctx.quote.value).value, limits.collar) then Some(PriceCollar)
    else if o.entryPrice < cfg.minPrice || o.entryPrice > cfg.maxPrice then Some(Illiquid)
    else if ctx.avgVolume != 0.0 && ctx.avgVolume < cfg.minAvgVolume then Some(Illiquid)
    else if Abs(o.entryPrice - o.stopPrice) * o.quantity as real > funds.equity * limits.maxRisk * 1.02
      then Some(PerTradeRisk)
    else if o.notional > funds.equity * limits.maxNotional * 1.02 then Some(NotionalExceeded)
    else if o.notional > funds.buyingPower * (1.0 - limits.reserve) then Some(NoBuyingPower)
    else None
  }

  /** Checks 15 to 19. */
  function RoomReason(o: SizedOrder, ctx: Context, cfg: GateConfig, rateOk: bool): Option<Reason> {
    if !Holds(ctx.account, o.symbol) && |HeldSymbols(ctx.account)| >= cfg.maxPositions then Some(MaxPositions)
    else if ctx.entriesThisCycle >= cfg.maxEntriesPerCycle then Some(MaxEntries)
    else if LostLimit(ctx, cfg) then Some(DailyLoss)
    else if ctx.tradesToday >= cfg.maxTradesPerDay then Some(DailyTradeCap)
    else if !rateOk then Some(DailyTradeCap)
    else None
  }

  /** Checks 20 to 24. */
  function RepeatReason(o: SizedOrder, ctx: Context, cfg: GateConfig, now: real): Option<Reason> {
    if o.symbol in ctx.working then Some(Duplicate)
    else if HoldsLong(ctx.account, o.symbol) && o.action == Buy then Some(Duplicate)
    else if HoldsShort(ctx.account, o.symbol) && o.action == Sell then Some(Duplicate)
    else if TooSoon(ctx.lastEntry, o.symbol, cfg.cooldown, now) then Some(Cooldown)
    else if TooSoon(ctx.lastClose, o.symbol, cfg.flipFlopGuard, now) then Some(FlipFlop)
    else if o.action == Sell && !Holds(ctx.account, o.symbol) && !cfg.allowShorts then Some(ModeInterlock)
    else if cfg.requireOfficer && !ctx.officerApproved then Some(OfficerVeto)
    else None
  }

  function Else(first: Option<Reason>, second: Option<Reason>): Option<Reason> {
    if first.Some? then first else second
  }

  /** What is wrong with an order, when it is judged check by check and the first failure ends it. */
  function FirstReason(o: SizedOrder, ctx: Context, cfg: GateConfig, killed: bool, rateOk: bool, now: real)
    : Option<Reason>
  {
    Else(StandingReason(ctx, cfg, killed), Else(QuoteReason(ctx.quote, cfg), Else(OrderReason(o, ctx, cfg),
      Else(RoomReason(o, ctx, cfg, rateOk), RepeatReason(o, ctx, cfg, now)))))
  }

  // ------------------------------------------------------------------ the shared predicates, in these terms

  lemma CollarTerms(o: SizedOrder, quote: Option<Quote>, cfg: Limits)
    ensures CollarOk(o, quote, cfg)
       <==> !(quote.Some? && MarketPrice(quote.value).Some?
              && FarFrom(o.entryPrice, MarketPrice(quote.value).value, cfg.collar))
  {
    if quote.Some? && MarketPrice(quote.value).Some? {
      var m := MarketPrice(quote.value).value;
      QuoteTerms(quote.value);
      if m > 0.0 {
        ShareAtMost(Abs(o.entryPrice - m), m, cfg.collar);
      } else if m < 0.0 {
        ShareAtLeast(Abs(o.entryPrice - m), m, cfg.collar);
      }
    } else if quote.Some? {
      QuoteTerms(quote.value);
    }
  }

  lemma SpreadTerms(q: Quote, most: real)
    ensures q.SpreadPct().Some? && q.SpreadPct().value > most
       <==> BothSides(q) && q.ask.value - q.bid.value > most * ((q.bid.value + q.ask.value) / 2.0)
  {
    if BothSides(q) { ShareAtMost(q.ask.value - q.bid.value, (q.bid.value + q.ask.value) / 2.0, most); }
  }

  // ------------------------------------------------------------------ the gate finds exactly these

  lemma StandingIs(ctx: Context, cfg: GateConfig, killed: bool)
    ensures RiskGate.Verdict(StandingFailures(ctx, cfg, killed)) == StandingReason(ctx, cfg, killed)
  {
  }

  lemma QuoteIs(quote: Option<Quote>, cfg: GateConfig)
    ensures RiskGate.Verdict(QuoteFailures(quote, cfg)) == QuoteReason(quote, cfg)
  {
    if quote.Some? {
      QuoteTerms(quote.value);
      SpreadTerms(quote.value, cfg.maxSpread);
    }
  }

  lemma OrderIs(o: SizedOrder, ctx: Context, cfg: GateConfig)
    ensures RiskGate.Verdict(OrderFailures(o, ctx, cfg)) == OrderReason(o, ctx, cfg)
  {
    CollarTerms(o, ctx.quote, cfg.limits);
  }

  lemma OpenIs(account: Account)
    ensures account.Open().Keys == HeldSymbols(account) && |account.Open()| == |HeldSymbols(account)|
  {
    assert account.Open().Keys == HeldSymbols(account);
  }

  lemma RoomIs(o: SizedOrder, ctx: Context, cfg: GateConfig, rateOk: bool)
    ensures RiskGate.Verdict(RoomFailures(o, ctx, cfg, rateOk)) == RoomReason(o, ctx, cfg, rateOk)
  {
    OpenIs(ctx.account);
    LossTerms(ctx, cfg);
  }

  lemma RepeatIs(o: SizedOrder, ctx: Context, cfg: GateConfig, now: real)
    ensures RiskGate.Verdict(RepeatFailures(o, ctx, cfg, now)) == RepeatReason(o, ctx, cfg, now)
  {
    OpenIs(ctx.account);
  }

  lemma FirstOfBoth(a: seq<Reason>, b: seq<Reason>)
    ensures RiskGate.Verdict(a + b) == Else(RiskGate.Verdict(a), RiskGate.Verdict(b))
  {
  }

  /**
   * Running every check and reporting the first failure is the same as judging check by check: the order is
   * approved exactly when no check fails, and otherwise refused for the first that does.
   */
  lemma VerdictIsFirstReason(o: SizedOrder, ctx: Context, cfg: GateConfig, killed: bool, rateOk: bool, now: real)
    ensures RiskGate.Verdict(Failures(o, ctx, cfg, killed, rateOk, now))
         == FirstReason(o, ctx, cfg, killed, rateOk, now)
  {
    var a, b, c := StandingFailures(ctx, cfg, killed), QuoteFailures(ctx.quote, cfg), OrderFailures(o, ctx, cfg);
    var d, e := RoomFailures(o, ctx, cfg, rateOk), RepeatFailures(o, ctx, cfg, now);
    StandingIs(ctx, cfg, killed);
    QuoteIs(ctx.quote, cfg);
    OrderIs(o, ctx, cfg);
    RoomIs(o, ctx, cfg, rateOk);
    RepeatIs(o, ctx, cfg, now);
    FirstOfBoth(a, b);
    FirstOfBoth(a + b, c);
    FirstOfBoth(a + b + c, d);
    FirstOfBoth(a + b + c + d, e);
  }

  function Poorer(ctx: Context, equity: real): Context {
    ctx.(account := ctx.account.(funds := ctx.account.funds.(equity := equity)))
  }

  lemma PoorerOrder(o: SizedOrder, ctx: Context, cfg: GateConfig, equity: real)
    requires equity <= ctx.account.funds.equity && cfg.limits.maxRisk >= 0.0 && cfg.limits.maxNotional >= 0.0
    ensures OrderReason(o, ctx, cfg) != None ==> OrderReason(o, Poorer(ctx, equity), cfg) != None
  {
    TimesMonotone(cfg.limits.maxRisk, equity, ctx.account.funds.equity);
    TimesMonotone(cfg.limits.maxNotional, equity, ctx.account.funds.equity);
  }

  lemma PoorerRoom(o: SizedOrder, ctx: Context, cfg: GateConfig, rateOk: bool, equity: real)
    requires equity <= ctx.account.funds.equity
    ensures RoomReason(o, ctx, cfg, rateOk) != None ==> RoomReason(o, Poorer(ctx, equity), cfg, rateOk) != None
  {
  }

  /** Losing more never turns a refusal into an approval. */
  lemma LosingMoreStaysRefused(o: SizedOrder, ctx: Context, cfg: GateConfig, killed: bool, rateOk: bool, now: real,
      equity: real)
    requires equity <= ctx.account.funds.equity && cfg.limits.maxRisk >= 0.0 && cfg.limits.maxNotional >= 0.0
    requires RiskGate.Verdict(Failures(o, ctx, cfg, killed, rateOk, now)) != None
    ensures RiskGate.Verdict(Failures(o, Poorer(ctx, equity), cfg, killed, rateOk, now)) != None
  {
    VerdictIsFirstReason(o, ctx, cfg, killed, rateOk, now);
    VerdictIsFirstReason(o, Poorer(ctx, equity), cfg, killed, rateOk, now);
    PoorerOrder(o, ctx, cfg, equity);
    PoorerRoom(o, ctx, cfg, rateOk, equity);
  }
}
