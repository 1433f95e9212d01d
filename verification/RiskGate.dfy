/** The risk gate: every pre-trade check in order, the smaller gate on exits, and submission. */
module RiskGate {
  import opened Common
  import opened Domain
  import opened Sizing
  import OrderModel
  import Pacing

  datatype Phase = Closed | PreMarket | OpeningRange | Rth | Closing | AfterHours {
    predicate Tradeable() { OpeningRange? || Rth? || Closing? }
  }

  datatype Reason =
    | KillSwitch | ModeInterlock | MarketClosed | TooLate | StaleAccount | StaleData | NoMarketData | Halted
    | SpreadTooWide | ZeroQuantity | PriceCollar | Illiquid | PerTradeRisk | NotionalExceeded | NoBuyingPower
    | MaxPositions | MaxEntries | DailyLoss | DailyTradeCap | Duplicate | Cooldown | FlipFlop | OfficerVeto

  datatype GateConfig = GateConfig(
    limits: Limits, noEntryMinutes: real, maxAccountAge: real, maxDecisionAge: real, maxQuoteAge: real,
    maxSpread: real, minPrice: real, maxPrice: real, minAvgVolume: real, maxPositions: int,
    maxEntriesPerCycle: int, dailyLossLimit: real, maxTradesPerDay: int, maxOrdersPerMinute: int,
    cooldown: real, flipFlopGuard: real, allowShorts: bool, requireOfficer: bool)

  datatype Account = Account(id: string, funds: Funds, positions: map<string, Position>) {
    function Open(): map<string, Position> {
      map s | s in positions && positions[s].quantity != 0.0 :: positions[s]
    }

    /** Paper accounts start with DU or DF, in either case. */
    predicate IsPaper() {
      |id| >= 2 && (id[0] == 'D' || id[0] == 'd') && (id[1] == 'U' || id[1] == 'u' || id[1] == 'F' || id[1] == 'f')
    }
  }

  /** Everything the gate judges an order by, as it stands at the moment of the evaluation. */
  datatype Context = Context(
    account: Account, accountAge: real, quote: Option<Quote>, phase: Phase, minutesToClose: real, isLive: bool,
    startingEquity: real, entriesThisCycle: int, tradesToday: int, working: set<string>,
    lastEntry: map<string, real>, lastClose: map<string, real>, decisionAge: real, officerApproved: bool,
    avgVolume: real)

  // ------------------------------------------------------------------ the checks

  /** Check 17: total loss since the session's start reached the limit. */
  predicate LossBreached(ctx: Context, cfg: GateConfig) {
    ctx.startingEquity > 0.0 &&
    (ctx.account.funds.equity - ctx.startingEquity) / ctx.startingEquity <= -cfg.dailyLossLimit
  }

  /** The session has lost its limit: equity is down to what the limit leaves of where it started. */
  predicate LostLimit(ctx: Context, cfg: GateConfig) {
    ctx.startingEquity > 0.0 && ctx.account.funds.equity <= ctx.startingEquity * (1.0 - cfg.dailyLossLimit)
  }

  lemma LossTerms(ctx: Context, cfg: GateConfig)
    ensures LossBreached(ctx, cfg) <==> LostLimit(ctx, cfg)
  {
    if ctx.startingEquity > 0.0 {
      ShareAtMost(ctx.account.funds.equity - ctx.startingEquity, ctx.startingEquity, -cfg.dailyLossLimit);
    }
  }

  predicate SameSide(o: SizedOrder, held: Position) {
    if held.IsLong() then o.action == Buy else o.action == Sell
  }

  /** Less than `span` has passed since what is noted for the symbol, if anything is. */
  predicate Within(noted: map<string, real>, symbol: string, span: real, now: real) {
    symbol in noted && now - noted[symbol] < span
  }

  /** The failures so far, and one more if this check failed. */
  function Noting(before: seq<Reason>, failed: bool, reason: Reason): seq<Reason> {
    if failed then before + [reason] else before
  }

  /** Checks 1 to 6: may anything be traded at all? */
  function StandingFailures(ctx: Context, cfg: GateConfig, killed: bool): seq<Reason> {
    var f1 := Noting([], killed, KillSwitch);
    var f2 := Noting(f1, ctx.isLive && ctx.account.IsPaper(), ModeInterlock);
    var f3 := Noting(f2, !ctx.isLive && !ctx.account.IsPaper() && ctx.account.id != "", ModeInterlock);
    var f4 := Noting(f3, !ctx.phase.Tradeable(), MarketClosed);
    var f5 := Noting(f4, ctx.minutesToClose <= cfg.noEntryMinutes, TooLate);
    var f6 := Noting(f5, ctx.accountAge > cfg.maxAccountAge, StaleAccount);
    Noting(f6, ctx.decisionAge > cfg.maxDecisionAge, StaleData)
  }

  /** Check 7: is the market data usable? */
  function QuoteFailures(quote: Option<Quote>, cfg: GateConfig): seq<Reason> {
    match quote
    case None => [NoMarketData]
    case Some(q) =>
      var f1 := Noting([], q.halted, Halted);
      var f2 := Noting(f1, !q.Usable(), NoMarketData);
      var f3 := Noting(f2, q.age > cfg.maxQuoteAge, StaleData);
      Noting(f3, q.SpreadPct().Some? && q.SpreadPct().value > cfg.maxSpread, SpreadTooWide)
  }

  /** Checks 8 to 14: is this order within its own limits? */
  function OrderFailures(o: SizedOrder, ctx: Context, cfg: GateConfig): seq<Reason> {
    var f1 := Noting([], !QuantityOk(o), ZeroQuantity);
    var f2 := Noting(f1, !CollarOk(o, ctx.quote, cfg.limits), PriceCollar);
    var f3 := Noting(f2, !(cfg.minPrice <= o.entryPrice <= cfg.maxPrice), Illiquid);
    var f4 := Noting(f3, ctx.avgVolume != 0.0 && ctx.avgVolume < cfg.minAvgVolume, Illiquid);
    var f5 := Noting(f4, !RiskOk(o, ctx.account.funds, cfg.limits), PerTradeRisk);
    var f6 := Noting(f5, !NotionalOk(o, ctx.account.funds, cfg.limits), NotionalExceeded);
    Noting(f6, !BuyingPowerOk(o, ctx.account.funds, cfg.limits), NoBuyingPower)
  }

  /** Checks 15 to 19: does the session have room for it? */
  function RoomFailures(o: SizedOrder, ctx: Context, cfg: GateConfig, rateOk: bool): seq<Reason> {
    var f1 := Noting([], o.symbol !in ctx.account.Open() && |ctx.account.Open()| >= cfg.maxPositions, MaxPositions);
    var f2 := Noting(f1, ctx.entriesThisCycle >= cfg.maxEntriesPerCycle, MaxEntries);
    var f3 := Noting(f2, LossBreached(ctx, cfg), DailyLoss);
    var f4 := Noting(f3, ctx.tradesToday >= cfg.maxTradesPerDay, DailyTradeCap);
    Noting(f4, !rateOk, DailyTradeCap)
  }

  /** Checks 20 to 24: does it repeat, reverse, short, or has the officer declined it? */
  function RepeatFailures(o: SizedOrder, ctx: Context, cfg: GateConfig, now: real): seq<Reason> {
    var f1 := Noting([], o.symbol in ctx.working, Duplicate);
    var f2 := Noting(f1, o.symbol in ctx.account.Open() && SameSide(o, ctx.account.Open()[o.symbol]), Duplicate);
    var f3 := Noting(f2, Within(ctx.lastEntry, o.symbol, cfg.cooldown, now), Cooldown);
    var f4 := Noting(f3, Within(ctx.lastClose, o.symbol, cfg.flipFlopGuard, now), FlipFlop);
    var f5 := Noting(f4, o.action == Sell && o.symbol !in ctx.account.Open() && !cfg.allowShorts, ModeInterlock);
    Noting(f5, cfg.requireOfficer && !ctx.officerApproved, OfficerVeto)
  }

  /** Every failed check in the order the gate runs them. */
  function Failures(o: SizedOrder, ctx: Context, cfg: GateConfig, killed: bool, rateOk: bool, now: real): seq<Reason> {
    StandingFailures(ctx, cfg, killed) + QuoteFailures(ctx.quote, cfg) + OrderFailures(o, ctx, cfg)
    + RoomFailures(o, ctx, cfg, rateOk) + RepeatFailures(o, ctx, cfg, now)
  }

  /** The verdict is the first failure; none means approved. */
  function Verdict(failures: seq<Reason>): Option<Reason> {
    if failures == [] then None else Some(failures[0])
  }

  /** What an approved order is known to satisfy. */
  predicate Permits(o: SizedOrder, ctx: Context, cfg: GateConfig, killed: bool, rateOk: bool, now: real) {
    && !killed && ctx.phase.Tradeable() && ctx.minutesToClose > cfg.noEntryMinutes
    && (ctx.account.id != "" ==> ctx.isLive == !ctx.account.IsPaper())
    && ctx.accountAge <= cfg.maxAccountAge && ctx.decisionAge <= cfg.maxDecisionAge
    && FreshQuote(ctx.quote, cfg)
    && QuantityOk(o) && CollarOk(o, ctx.quote, cfg.limits) && cfg.minPrice <= o.entryPrice <= cfg.maxPrice
    && (ctx.avgVolume != 0.0 ==> ctx.avgVolume >= cfg.minAvgVolume)
    && RiskOk(o, ctx.account.funds, cfg.limits) && NotionalOk(o, ctx.account.funds, cfg.limits)
    && BuyingPowerOk(o, ctx.account.funds, cfg.limits)
    && (o.symbol in ctx.account.Open() || |ctx.account.Open()| < cfg.maxPositions)
    && ctx.entriesThisCycle < cfg.maxEntriesPerCycle && ctx.tradesToday < cfg.maxTradesPerDay
    && !LossBreached(ctx, cfg) && rateOk
    && o.symbol !in ctx.working
    && (o.symbol in ctx.account.Open() ==> !SameSide(o, ctx.account.Open()[o.symbol]))
    && (o.symbol in ctx.lastEntry ==> now - ctx.lastEntry[o.symbol] >= cfg.cooldown)
    && (o.symbol in ctx.lastClose ==> now - ctx.lastClose[o.symbol] >= cfg.flipFlopGuard)
    && (o.action == Sell ==> o.symbol in ctx.account.Open() || cfg.allowShorts)
    && (cfg.requireOfficer ==> ctx.officerApproved)
  }

  /** A quote priced now, not halted and not too wide. */
  predicate FreshQuote(quote: Option<Quote>, cfg: GateConfig) {
    && quote.Some? && !quote.value.halted && quote.value.age <= cfg.maxQuoteAge
    && quote.value.Mid().Some? && quote.value.Mid().value > 0.0
    && (quote.value.SpreadPct().Some? ==> quote.value.SpreadPct().value <= cfg.maxSpread)
  }

  /** Any one failing check vetoes, and nothing else does. */
  lemma ApprovedExactlyWhen(o: SizedOrder, ctx: Context, cfg: GateConfig, killed: bool, rateOk: bool, now: real)
    ensures Verdict(Failures(o, ctx, cfg, killed, rateOk, now)) == None <==> Permits(o, ctx, cfg, killed, rateOk, now)
  {
    var a, b, c := StandingFailures(ctx, cfg, killed), QuoteFailures(ctx.quote, cfg), OrderFailures(o, ctx, cfg);
    var d, e := RoomFailures(o, ctx, cfg, rateOk), RepeatFailures(o, ctx, cfg, now);
    assert |a + b + c + d + e| == |a| + |b| + |c| + |d| + |e|;
  }

  /** The advisory officer can only veto: it turns approvals into rejections and never the reverse. */
  lemma OfficerOnlyVetoes(o: SizedOrder, ctx: Context, cfg: GateConfig, killed: bool, rateOk: bool, now: real)
    ensures Verdict(Failures(o, ctx, cfg, killed, rateOk, now)) == None
       <==> Verdict(Failures(o, ctx.(officerApproved := true), cfg, killed, rateOk, now)) == None
            && (cfg.requireOfficer ==> ctx.officerApproved)
  {
    ApprovedExactlyWhen(o, ctx, cfg, killed, rateOk, now);
    ApprovedExactlyWhen(o, ctx.(officerApproved := true), cfg, killed, rateOk, now);
  }

  /**
   * Sizing and the gate agree: an order sized for the same account and limits is never refused for its
   * quantity, its risk, its exposure or its cost.
   */
  lemma SizedOrdersFit(p: Proposal, f: Features, offsetPct: real, tick: real -> real,
      ctx: Context, cfg: GateConfig, killed: bool, rateOk: bool, now: real, r: Reason)
    requires Validated(cfg.limits)
    requires SizeProposal(p, f, ctx.account.funds, ctx.quote, cfg.limits, offsetPct, tick).Some?
    requires IsLimit(r)
    ensures r !in Failures(SizeProposal(p, f, ctx.account.funds, ctx.quote, cfg.limits, offsetPct, tick).value,
                           ctx, cfg, killed, rateOk, now)
  {
    var o := SizeProposal(p, f, ctx.account.funds, ctx.quote, cfg.limits, offsetPct, tick).value;
    SizedPassesGate(p, f, ctx.account.funds, ctx.quote, cfg.limits, offsetPct, tick);
    FitMeansNoLimitReason(o, ctx, cfg, r);
    StandingGivesNoLimitReason(ctx, cfg, killed, r);
    QuoteGivesNoLimitReason(ctx.quote, cfg, r);
    RoomGivesNoLimitReason(o, ctx, cfg, rateOk, r);
    RepeatGivesNoLimitReason(o, ctx, cfg, now, r);
  }

  /**
   * From proposal to wire: the three legs sent for a sized order are a limit entry and two exits on the
   * other side, the stop strictly on the losing side of the entry and the target strictly on the winning
   * side, and what the stop gives up on the whole quantity is within the cap on one trade.
   */
  lemma SizedBracketLimitsLoss(p: Proposal, f: Features, funds: Funds, quote: Option<Quote>, cfg: Limits,
      offsetPct: real, tick: real -> real, cycle: string, days: OrderModel.Days)
    requires Validated(cfg) && SizeProposal(p, f, funds, quote, cfg, offsetPct, tick).Some?
    ensures var o := SizeProposal(p, f, funds, quote, cfg, offsetPct, tick).value;
      var specs := OrderModel.BracketSpecs(o, cycle, days);
      && OrderModel.IsBracket(specs, o)
      && (if specs[0].action == "BUY"
          then specs[1].stopPrice.value < specs[0].limitPrice.value < specs[2].limitPrice.value
          else specs[2].limitPrice.value < specs[0].limitPrice.value < specs[1].stopPrice.value)
      && specs[0].quantity * Abs(specs[0].limitPrice.value - specs[1].stopPrice.value) <= RiskCap(funds.equity, cfg)
  {
    var b, n := SizedParts(p, f, funds, quote, cfg, offsetPct, tick);
    BudgetCapped(p.conviction, funds.equity, cfg);
    BracketPasses(p, f, b, RiskBudget(p.conviction, funds.equity, cfg), funds, cfg);
    BracketLimitsLoss(p, b, n, funds, cfg, cycle, days);
  }

  lemma BracketLimitsLoss(p: Proposal, b: Bracket, n: int, funds: Funds, cfg: Limits, cycle: string,
      days: OrderModel.Days)
    requires Sided(p.action == Buy, b) && OrderFor(p, b, n).riskAmount <= RiskCap(funds.equity, cfg)
    ensures var specs := OrderModel.BracketSpecs(OrderFor(p, b, n), cycle, days);
      && OrderModel.IsBracket(specs, OrderFor(p, b, n))
      && (if specs[0].action == "BUY"
          then specs[1].stopPrice.value < specs[0].limitPrice.value < specs[2].limitPrice.value
          else specs[2].limitPrice.value < specs[0].limitPrice.value < specs[1].stopPrice.value)
      && specs[0].quantity * Abs(specs[0].limitPrice.value - specs[1].stopPrice.value) <= RiskCap(funds.equity, cfg)
  {
  }

  /** The reasons only an order's own quantity, risk or cost can give. */
  predicate IsLimit(r: Reason) { r.ZeroQuantity? || r.PerTradeRisk? || r.NotionalExceeded? || r.NoBuyingPower? }

  lemma StandingGivesNoLimitReason(ctx: Context, cfg: GateConfig, killed: bool, r: Reason)
    requires IsLimit(r)
    ensures r !in StandingFailures(ctx, cfg, killed)
  {
  }

  lemma QuoteGivesNoLimitReason(quote: Option<Quote>, cfg: GateConfig, r: Reason)
    requires IsLimit(r)
    ensures r !in QuoteFailures(quote, cfg)
  {
  }

  lemma RoomGivesNoLimitReason(o: SizedOrder, ctx: Context, cfg: GateConfig, rateOk: bool, r: Reason)
    requires IsLimit(r)
    ensures r !in RoomFailures(o, ctx, cfg, rateOk)
  {
  }

  lemma RepeatGivesNoLimitReason(o: SizedOrder, ctx: Context, cfg: GateConfig, now: real, r: Reason)
    requires IsLimit(r)
    ensures r !in RepeatFailures(o, ctx, cfg, now)
  {
  }

  lemma FitMeansNoLimitReason(o: SizedOrder, ctx: Context, cfg: GateConfig, r: Reason)
    requires IsLimit(r) && WithinLimits(o, ctx.account.funds, cfg.limits)
    ensures r !in OrderFailures(o, ctx, cfg)
  {
  }

  lemma PassedMeansRoom(o: SizedOrder, ctx: Context, cfg: GateConfig, killed: bool, rateOk: bool, now: real)
    requires Verdict(Failures(o, ctx, cfg, killed, rateOk, now)) == None
    ensures rateOk
  {
    ApprovedExactlyWhen(o, ctx, cfg, killed, rateOk, now);
  }

  // ------------------------------------------------------------------ the gate on exits

  /** `evaluate_close`: the first thing wrong with an exit, if anything is. */
  function CloseVerdict(symbol: string, quote: Option<Quote>, phase: Phase, working: set<string>, cfg: GateConfig,
      killed: bool)
    : (r: Option<Reason>)
    ensures r == None <==>
      !killed && phase.Tradeable() && symbol !in working && quote.Some? && quote.value.Usable()
      && quote.value.age <= cfg.maxQuoteAge
  {
    if killed then Some(KillSwitch)
    else if !phase.Tradeable() then Some(MarketClosed)
    else if symbol in working then Some(Duplicate)
    else if quote.None? then Some(NoMarketData)
    else if quote.value.halted then Some(Halted)
    else if !quote.value.Usable() then Some(NoMarketData)
    else if quote.value.age > cfg.maxQuoteAge then Some(StaleData)
    else None
  }

  /**
   * The exit gate is the part of the entry gate that is not about taking risk: the switch, the session
   * phase, every market data check but the spread, and the working-order interlock.
   */
  lemma ExitGateIsPartOfEntryGate(symbol: string, ctx: Context, cfg: GateConfig, killed: bool)
    ensures CloseVerdict(symbol, ctx.quote, ctx.phase, ctx.working, cfg, killed) == None
       <==> KillSwitch !in StandingFailures(ctx, cfg, killed) && MarketClosed !in StandingFailures(ctx, cfg, killed)
            && (forall r :: r in QuoteFailures(ctx.quote, cfg) ==> r == SpreadTooWide) && symbol !in ctx.working
  {
    StandingShows(ctx, cfg, killed);
    QuoteShows(ctx.quote, cfg);
  }

  lemma StandingShows(ctx: Context, cfg: GateConfig, killed: bool)
    ensures KillSwitch in StandingFailures(ctx, cfg, killed) <==> killed
    ensures MarketClosed in StandingFailures(ctx, cfg, killed) <==> !ctx.phase.Tradeable()
  {
  }

  lemma QuoteShows(quote: Option<Quote>, cfg: GateConfig)
    ensures (forall r :: r in QuoteFailures(quote, cfg) ==> r == SpreadTooWide)
       <==> quote.Some? && quote.value.Usable() && quote.value.age <= cfg.maxQuoteAge
  {
    if quote.Some? {
      var q := quote.value;
      assert q.halted ==> Halted in QuoteFailures(quote, cfg);
      assert !q.Usable() ==> NoMarketData in QuoteFailures(quote, cfg);
      assert q.age > cfg.maxQuoteAge ==> StaleData in QuoteFailures(quote, cfg);
    } else {
      assert NoMarketData in QuoteFailures(quote, cfg);
    }
  }

  /** Wherever an entry in a symbol would be allowed, so is an exit. */
  lemma ExitsAreGatedLess(o: SizedOrder, ctx: Context, cfg: GateConfig, killed: bool, rateOk: bool, now: real)
    requires Verdict(Failures(o, ctx, cfg, killed, rateOk, now)) == None
    ensures CloseVerdict(o.symbol, ctx.quote, ctx.phase, ctx.working, cfg, killed) == None
  {
    ApprovedExactlyWhen(o, ctx, cfg, killed, rateOk, now);
  }

  // ------------------------------------------------------------------ submission

  /**
   * What happens around one submission: the switch before and at the last look, and whether the order
   * manager's call returned. Returning is not sending: an entry already known returns at once.
   */
  datatype Wire = Wire(killed: bool, killedLate: bool, returned: bool, checkedAt: real, doneAt: real)

  /** `submit`: approved means the gate passed and the order manager did not raise. */
  function SubmitVerdict(o: SizedOrder, ctx: Context, cfg: GateConfig, w: Wire, times: seq<real>): Option<Reason> {
    var rateOk := |Pacing.Recent(times, w.checkedAt)| < cfg.maxOrdersPerMinute;
    var failures := Failures(o, ctx, cfg, w.killed, rateOk, w.checkedAt);
    if failures != [] then Verdict(failures)
    else if w.killedLate then Some(KillSwitch)
    else if !w.returned then Some(Duplicate)
    else None
  }

  /** The order times after a submission: pruned by the check, and one more once the call returned. */
  function TimesAfter(verdict: Option<Reason>, w: Wire, times: seq<real>): seq<real> {
    Pacing.Recent(times, w.checkedAt) + if verdict == None then [w.doneAt] else []
  }

  class RiskEngine {
    const cfg: GateConfig
    const breaker: Pacing.OrderRateBreaker
    var dailyLossTripped: bool

    ghost predicate Valid(now: real)
      reads this, breaker
    {
      breaker.maxPerMinute == cfg.maxOrdersPerMinute && breaker.Valid(now)
    }

    constructor (cfg: GateConfig, ghost overlap: nat)
      requires cfg.maxOrdersPerMinute >= 1 && overlap >= 1
      ensures this.cfg == cfg && !dailyLossTripped && fresh(breaker) && breaker.overlap == overlap
      ensures breaker.orderTimes == [] && breaker.recorded == [] && breaker.inFlight == 0
      ensures forall now :: Valid(now)
    {
      this.cfg := cfg;
      this.breaker := new Pacing.OrderRateBreaker(cfg.maxOrdersPerMinute, overlap);
      dailyLossTripped := false;
    }

    method CheckStanding(ctx: Context, killed: bool) returns (failures: seq<Reason>)
      ensures failures == StandingFailures(ctx, cfg, killed)
    {
      failures := [];
      if killed { failures := failures + [KillSwitch]; }
      if ctx.isLive && ctx.account.IsPaper() { failures := failures + [ModeInterlock]; }
      if !ctx.isLive && !ctx.account.IsPaper() && ctx.account.id != "" { failures := failures + [ModeInterlock]; }
      if !ctx.phase.Tradeable() { failures := failures + [MarketClosed]; }
      if ctx.minutesToClose <= cfg.noEntryMinutes { failures := failures + [TooLate]; }
      if ctx.accountAge > cfg.maxAccountAge { failures := failures + [StaleAccount]; }
      if ctx.decisionAge > cfg.maxDecisionAge { failures := failures + [StaleData]; }
    }

    method CheckQuote(quote: Option<Quote>) returns (failures: seq<Reason>)
      ensures failures == QuoteFailures(quote, cfg)
    {
      failures := [];
      if quote.None? {
        failures := failures + [NoMarketData];
      } else {
        var q := quote.value;
        if q.halted { failures := failures + [Halted]; }
        if !q.Usable() { failures := failures + [NoMarketData]; }
        if q.age > cfg.maxQuoteAge { failures := failures + [StaleData]; }
        var spread := q.SpreadPct();
        if spread.Some? && spread.value > cfg.maxSpread { failures := failures + [SpreadTooWide]; }
      }
    }

    method CheckOrder(o: SizedOrder, ctx: Context) returns (failures: seq<Reason>)
      ensures failures == OrderFailures(o, ctx, cfg)
    {
      failures := [];
      if !QuantityOk(o) { failures := failures + [ZeroQuantity]; }
      if !CollarOk(o, ctx.quote, cfg.limits) { failures := failures + [PriceCollar]; }
      if !(cfg.minPrice <= o.entryPrice <= cfg.maxPrice) { failures := failures + [Illiquid]; }
      if ctx.avgVolume != 0.0 && ctx.avgVolume < cfg.minAvgVolume { failures := failures + [Illiquid]; }
      if !RiskOk(o, ctx.account.funds, cfg.limits) { failures := failures + [PerTradeRisk]; }
      if !NotionalOk(o, ctx.account.funds, cfg.limits) { failures := failures + [NotionalExceeded]; }
      if !BuyingPowerOk(o, ctx.account.funds, cfg.limits) { failures := failures + [NoBuyingPower]; }
    }

    method CheckRoom(o: SizedOrder, ctx: Context, now: real) returns (failures: seq<Reason>)
      requires Valid(now)
      modifies this`dailyLossTripped, breaker`orderTimes, breaker`forgotten
      ensures Valid(now) && breaker.orderTimes == Pacing.Recent(old(breaker.orderTimes), now)
      ensures failures == RoomFailures(o, ctx, cfg, |breaker.orderTimes| < cfg.maxOrdersPerMinute)
      ensures dailyLossTripped == (old(dailyLossTripped) || LossBreached(ctx, cfg))
    {
      failures := [];
      var open := ctx.account.Open();
      if o.symbol !in open && |open| >= cfg.maxPositions { failures := failures + [MaxPositions]; }
      if ctx.entriesThisCycle >= cfg.maxEntriesPerCycle { failures := failures + [MaxEntries]; }
      if LossBreached(ctx, cfg) {
        dailyLossTripped := true;
        failures := failures + [DailyLoss];
      }
      if ctx.tradesToday >= cfg.maxTradesPerDay { failures := failures + [DailyTradeCap]; }
      var rateOk := breaker.Check(now);
      if !rateOk { failures := failures + [DailyTradeCap]; }
    }

    method CheckRepeats(o: SizedOrder, ctx: Context, now: real) returns (failures: seq<Reason>)
      ensures failures == RepeatFailures(o, ctx, cfg, now)
    {
      failures := [];
      var open := ctx.account.Open();
      if o.symbol in ctx.working { failures := failures + [Duplicate]; }
      if o.symbol in open {
        var held := open[o.symbol];
        if (held.IsLong() && o.action == Buy) || (!held.IsLong() && o.action == Sell) {
          failures := failures + [Duplicate];
        }
      }
      if o.symbol in ctx.lastEntry && now - ctx.lastEntry[o.symbol] < cfg.cooldown {
        failures := failures + [Cooldown];
      }
      if o.symbol in ctx.lastClose && now - ctx.lastClose[o.symbol] < cfg.flipFlopGuard {
        failures := failures + [FlipFlop];
      }
      if o.action == Sell && o.symbol !in open && !cfg.allowShorts { failures := failures + [ModeInterlock]; }
      if cfg.requireOfficer && !ctx.officerApproved { failures := failures + [OfficerVeto]; }
    }

    /** `evaluate`: every check runs, even after one has failed; the first failure is the verdict. */
    method Evaluate(o: SizedOrder, ctx: Context, killed: bool, now: real) returns (verdict: Option<Reason>)
      requires Valid(now)
      modifies this`dailyLossTripped, breaker`orderTimes, breaker`forgotten
      ensures Valid(now) && breaker.orderTimes == Pacing.Recent(old(breaker.orderTimes), now)
      ensures verdict == Verdict(Failures(o, ctx, cfg, killed, |breaker.orderTimes| < cfg.maxOrdersPerMinute, now))
      ensures dailyLossTripped == (old(dailyLossTripped) || LossBreached(ctx, cfg))
      ensures dailyLossTripped <==> old(dailyLossTripped) || LostLimit(ctx, cfg)
    {
      LossTerms(ctx, cfg);
      var standing := CheckStanding(ctx, killed);
      var data := CheckQuote(ctx.quote);
      var limits := CheckOrder(o, ctx);
      var room := CheckRoom(o, ctx, now);
      var repeats := CheckRepeats(o, ctx, now);
      verdict := Verdict(standing + data + limits + room + repeats);
    }

    /** `submit`, with no other submission before it returns: evaluate, last look, place, record. */
    method Submit(o: SizedOrder, ctx: Context, w: Wire) returns (verdict: Option<Reason>)
      requires w.checkedAt <= w.doneAt && Valid(w.checkedAt) && breaker.inFlight == 0 && breaker.overlap >= 1
      modifies this`dailyLossTripped, breaker
      ensures Valid(w.doneAt) && breaker.inFlight == 0
      ensures verdict == SubmitVerdict(o, ctx, cfg, w, old(breaker.orderTimes))
      ensures breaker.orderTimes == TimesAfter(verdict, w, old(breaker.orderTimes))
      ensures breaker.recorded == old(breaker.recorded) + if verdict == None then [w.doneAt] else []
      ensures dailyLossTripped == (old(dailyLossTripped) || LossBreached(ctx, cfg))
      ensures dailyLossTripped <==> old(dailyLossTripped) || LostLimit(ctx, cfg)
    {
      verdict := Evaluate(o, ctx, w.killed, w.checkedAt);
      if verdict.Some? {
        breaker.Later(w.checkedAt, w.doneAt);
        return;
      }
      PassedMeansRoom(o, ctx, cfg, w.killed, |breaker.orderTimes| < cfg.maxOrdersPerMinute, w.checkedAt);
      if w.killedLate {
        breaker.Later(w.checkedAt, w.doneAt);
        return Some(KillSwitch);
      }
      Place(w);
      verdict := if w.returned then None else Some(Duplicate);
    }

    /** The call to the broker, recorded once it returns and forgotten when it raises. */
    method Place(w: Wire)
      requires w.checkedAt <= w.doneAt && Valid(w.checkedAt) && |breaker.orderTimes| < cfg.maxOrdersPerMinute
      requires breaker.inFlight == 0 && breaker.overlap >= 1
      modifies breaker`orderTimes, breaker`recorded, breaker`inFlight
      ensures Valid(w.doneAt) && breaker.inFlight == 0
      ensures breaker.orderTimes == old(breaker.orderTimes) + if w.returned then [w.doneAt] else []
      ensures breaker.recorded == old(breaker.recorded) + if w.returned then [w.doneAt] else []
    {
      breaker.Enter(w.checkedAt);
      breaker.Later(w.checkedAt, w.doneAt);
      if w.returned {
        breaker.Record(w.doneAt);
      } else {
        breaker.Abandon(w.doneAt);
      }
    }

    method ResetForNewSession(ghost now: real)
      requires Valid(now)
      modifies this`dailyLossTripped, breaker`orderTimes, breaker`recorded, breaker`forgotten
      ensures Valid(now) && !dailyLossTripped && breaker.orderTimes == [] && breaker.recorded == []
    {
      dailyLossTripped := false;
      breaker.ResetForNewSession(now);
    }
  }
}
