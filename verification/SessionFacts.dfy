/** When a session enters, exits or queues an idea, in terms of what it was told. */
module SessionFacts {
  import opened Common
  import opened Domain
  import opened Sizing
  import opened RiskGate
  import opened GateFacts
  import opened Session
  import opened Terms
  import Pacing

  // ------------------------------------------------------------------ one entry

  /** The gate judges by the account and session of the cycle, the market of the turn and the notes of the desk. */
  ghost predicate Shown(ctx: Context, d: Desk, w: World, t: Turn) {
    && ctx.account == w.account && ctx.phase == w.phase && ctx.minutesToClose == w.minutesToClose
    && ctx.isLive == w.isLive
    && ctx.quote == t.quote && ctx.accountAge == t.accountAge && ctx.working == t.working
    && ctx.startingEquity == d.startingEquity && ctx.entriesThisCycle == d.entriesThisCycle
    && ctx.tradesToday == d.tradesToday && ctx.lastEntry == d.lastEntry && ctx.lastClose == d.lastClose
  }

  /** The order an idea comes to on the numbers at hand, if it has features. */
  function SizedNow(p: Proposal, w: World, t: Turn, cfg: GateConfig): Option<SizedOrder> {
    if p.symbol !in w.features then None
    else SizeProposal(p, w.features[p.symbol], w.account.funds, t.quote, cfg.limits, w.offsetPct, RoundToTick)
  }

  /** What the gate finds wrong with it, check by check. */
  function Objection(o: SizedOrder, ctx: Context, cfg: GateConfig, d: Desk, t: Turn): Option<Reason> {
    FirstReason(o, ctx, cfg, t.wire.killed, |Pacing.Recent(d.orderTimes, t.wire.checkedAt)| < cfg.maxOrdersPerMinute,
                t.wire.checkedAt)
  }

  /** It is sized, the gate has no objection, the switch stays off to the last look, and the call returns. */
  predicate GetsThrough(p: Proposal, ctx: Context, d: Desk, w: World, t: Turn, cfg: GateConfig) {
    && SizedNow(p, w, t, cfg).Some? && Objection(SizedNow(p, w, t, cfg).value, ctx, cfg, d, t) == None
    && !t.wire.killedLate && t.wire.returned
  }

  /** One entry was noted, under its symbol, at the time the call returned, and counted twice. */
  ghost predicate EntryNoted(d: Desk, p: Proposal, t: Turn, after: Desk) {
    && after.log == d.log + [Entered(p.symbol, p.conviction, t.wire.checkedAt, t.wire.doneAt)]
    && after.lastEntry == d.lastEntry[p.symbol := t.wire.doneAt] && after.lastClose == d.lastClose
    && after.tradesToday == d.tradesToday + 1 && after.entriesThisCycle == d.entriesThisCycle + 1
    && after.orderTimes == Pacing.Recent(d.orderTimes, t.wire.checkedAt) + [t.wire.doneAt]
  }

  /** What a submission is refused for once the gate has passed it: a switch tripped since, or a call that raised. */
  function LateReason(t: Turn): Option<Reason> { if t.wire.killedLate then Some(KillSwitch) else Some(Duplicate) }

  lemma SubmittingIs(d: Desk, p: Proposal, o: SizedOrder, ctx: Context, cfg: GateConfig, t: Turn)
    ensures var (after, verdict) := Submitting(d, p, o, ctx, cfg, t.wire);
      && (verdict == None <==> Objection(o, ctx, cfg, d, t) == None && !t.wire.killedLate && t.wire.returned)
      && (verdict != None ==> verdict == Else(Objection(o, ctx, cfg, d, t), LateReason(t)))
      && (if verdict == None then EntryNoted(d, p, t, after) else Quiet(d, after))
      && after.awaiting == d.awaiting && after.startingEquity == d.startingEquity
      && (after.lossTripped <==> d.lossTripped || LostLimit(ctx, cfg))
  {
    VerdictIsFirstReason(o, ctx, cfg, t.wire.killed,
      |Pacing.Recent(d.orderTimes, t.wire.checkedAt)| < cfg.maxOrdersPerMinute, t.wire.checkedAt);
    LossTerms(ctx, cfg);
  }

  /**
   * An entry that nobody is asked about is approved, and then noted, exactly when its symbol has features, its
   * conviction is at least 0.55, it can be sized, and the gate finds nothing wrong with it given the account,
   * the session, the market, the working orders, the notes and the officer's answer as they are told.
   */
  lemma EntryApprovedExactlyWhen(d: Desk, p: Proposal, w: World, t: Turn, cfg: GateConfig, ctx: Context)
    requires p.action != Close && !t.manual && Shown(ctx, d, w, t) && ctx.decisionAge == t.decisionAge
    requires ctx.officerApproved == (cfg.requireOfficer ==> t.officer)
    requires p.symbol in w.features ==> ctx.avgVolume == w.features[p.symbol].avgVolume
    ensures var (after, outcome) := Handle(d, p, w, t, cfg);
      && (outcome.Approved? <==> p.conviction >= 0.55 && GetsThrough(p, ctx, d, w, t, cfg))
      && (if outcome.Approved? then EntryNoted(d, p, t, after) else Quiet(d, after))
      && after.awaiting == d.awaiting
  {
    if SizedNow(p, w, t, cfg).Some? { SubmittingIs(d, p, SizedNow(p, w, t, cfg).value, ctx, cfg, t); }
  }

  /** A refused entry is listed under the first thing wrong with it. */
  lemma EntryRefusedFor(d: Desk, p: Proposal, w: World, t: Turn, cfg: GateConfig, ctx: Context)
    requires p.action != Close && !t.manual && Shown(ctx, d, w, t) && ctx.decisionAge == t.decisionAge
    requires ctx.officerApproved == (cfg.requireOfficer ==> t.officer)
    requires p.symbol in w.features ==> ctx.avgVolume == w.features[p.symbol].avgVolume
    ensures var outcome := Handle(d, p, w, t, cfg).1;
      && (outcome == Refused(NoFeatures) <==> p.symbol !in w.features)
      && (outcome == Refused(LowConviction) <==> p.symbol in w.features && p.conviction < 0.55)
      && (outcome == Refused(Unsizeable) <==>
            p.symbol in w.features && p.conviction >= 0.55 && SizedNow(p, w, t, cfg).None?)
      && (p.conviction >= 0.55 && SizedNow(p, w, t, cfg).Some? ==>
            var reason := Else(Objection(SizedNow(p, w, t, cfg).value, ctx, cfg, d, t), LateReason(t));
            outcome.Refused? ==> outcome == Refused(Gate(reason.value)))
  {
    if SizedNow(p, w, t, cfg).Some? { SubmittingIs(d, p, SizedNow(p, w, t, cfg).value, ctx, cfg, t); }
  }

  // ------------------------------------------------------------------ exits

  /** The exit gate, number by number. */
  predicate ExitOpen(symbol: string, w: World, t: Turn, cfg: GateConfig) {
    && !t.wire.killed && Trading(w.phase) && symbol !in t.working
    && t.quote.Some? && Priceable(t.quote.value) && t.quote.value.age <= cfg.maxQuoteAge
  }

  /** What the exit gate refuses for: the first of its checks that fails. */
  lemma ExitRefusedFor(symbol: string, quote: Option<Quote>, phase: Phase, working: set<string>, cfg: GateConfig,
      killed: bool)
    ensures var v := CloseVerdict(symbol, quote, phase, working, cfg, killed);
      var free := !killed && Trading(phase) && symbol !in working;
      && (v == Some(KillSwitch) <==> killed) && (v == Some(MarketClosed) <==> !killed && !Trading(phase))
      && (v == Some(Duplicate) <==> !killed && Trading(phase) && symbol in working)
      && (v == Some(Halted) <==> free && quote.Some? && quote.value.halted)
      && (v == Some(NoMarketData) <==> free && (quote.Some? ==> !quote.value.halted && !Priceable(quote.value)))
      && (v == Some(StaleData) <==>
            free && quote.Some? && Priceable(quote.value) && quote.value.age > cfg.maxQuoteAge)
      && (v == None <==> free && quote.Some? && Priceable(quote.value) && quote.value.age <= cfg.maxQuoteAge)
  {
    if quote.Some? { QuoteTerms(quote.value); }
  }

  /**
   * An exit is noted exactly when the position is held, the exit gate is open, nobody is asked and the broker
   * took it; it is queued, with its whole quantity on the side that closes it, exactly when somebody is asked.
   */
  lemma ExitExactlyWhen(d: Desk, p: Proposal, w: World, t: Turn, cfg: GateConfig)
    requires p.action == Close
    ensures var (after, outcome) := Handle(d, p, w, t, cfg);
      var allowed := Holds(w.account, p.symbol) && ExitOpen(p.symbol, w, t, cfg);
      && (outcome.Approved? <==> allowed && !t.manual && t.wire.returned)
      && (outcome.Waiting? <==> allowed && t.manual)
      && (outcome.Approved? ==>
            after == d.(lastClose := d.lastClose[p.symbol := t.wire.doneAt],
                        log := d.log + [Exited(p.symbol, t.wire.doneAt)]))
      && (outcome.Waiting? ==>
            var held := w.account.positions[p.symbol].quantity;
            after == d.(awaiting := d.awaiting
                          + [PendingClose(p.symbol, if held > 0.0 then Sell else Buy, held, held > 0.0)]))
      && (outcome.Refused? ==> after == d)
  {
    OpenIs(w.account);
    ExitRefusedFor(p.symbol, t.quote, w.phase, t.working, cfg, t.wire.killed);
  }

  // ------------------------------------------------------------------ approvals

  /** All ideas but the one at `index`, in their order. */
  ghost predicate AllBut(before: seq<Pending>, index: nat, after: seq<Pending>) {
    && |after| + 1 == |before|
    && forall k :: 0 <= k < |after| ==> after[k] == before[if k < index then k else k + 1]
  }

  /**
   * A person's yes takes exactly that idea off the list. An entry is then sized and judged again on the
   * numbers at hand, as decided just now and with the officer content, and entered exactly when it gets
   * through; its old size and prices play no part.
   */
  lemma ApprovedIdeaExactlyWhen(d: Desk, index: nat, w: World, t: Turn, cfg: GateConfig, ctx: Context)
    requires index < |d.awaiting| && d.awaiting[index].PendingEntry?
    requires Shown(ctx, d, w, t) && ctx.decisionAge == 0.0 && ctx.officerApproved
    requires var p := d.awaiting[index].proposal;
             p.symbol in w.features ==> ctx.avgVolume == w.features[p.symbol].avgVolume
    ensures var p, after := d.awaiting[index].proposal, Approving(d, index, w, t, cfg);
      && AllBut(d.awaiting, index, after.awaiting)
      && (if GetsThrough(p, ctx, d, w, t, cfg) then EntryNoted(d, p, t, after) else Quiet(d, after))
  {
    var p := d.awaiting[index].proposal;
    var rest := d.(awaiting := d.awaiting[..index] + d.awaiting[index + 1..]);
    if SizedNow(p, w, t, cfg).Some? { SubmittingIs(rest, p, SizedNow(p, w, t, cfg).value, ctx, cfg, t); }
  }

  /** So with an exit: it leaves the list, and is noted exactly when the exit gate is open and the broker took it. */
  lemma ApprovedExitExactlyWhen(d: Desk, index: nat, w: World, t: Turn, cfg: GateConfig)
    requires index < |d.awaiting| && d.awaiting[index].PendingClose?
    ensures var symbol, after := d.awaiting[index].symbol, Approving(d, index, w, t, cfg);
      && AllBut(d.awaiting, index, after.awaiting)
      && (if ExitOpen(symbol, w, t, cfg) && t.wire.returned
          then after.log == d.log + [Exited(symbol, t.wire.doneAt)]
               && after.lastClose == d.lastClose[symbol := t.wire.doneAt] && after.lastEntry == d.lastEntry
               && after.tradesToday == d.tradesToday && after.entriesThisCycle == d.entriesThisCycle
          else Quiet(d, after))
  {
    var symbol := d.awaiting[index].symbol;
    ExitRefusedFor(symbol, t.quote, w.phase, t.working, cfg, t.wire.killed);
  }

  // ------------------------------------------------------------------ whole runs

  /** The entry was decided and sent on this turn, no order of its symbol worked, and the switch was off. */
  predicate SentOn(e: Event, t: Turn) {
    && e.Entered? && e.since == t.wire.checkedAt && e.at == t.wire.doneAt
    && e.symbol !in t.working && !t.wire.killed && !t.wire.killedLate && t.wire.returned
    && t.quote.Some? && Priceable(t.quote.value)
  }

  /** It answers a proposal of a cycle that nobody was asked about and a required officer consented to. */
  predicate FromProposal(e: Event, p: Proposal, t: Turn, w: World, cfg: GateConfig) {
    && SentOn(e, t) && e.symbol == p.symbol && e.conviction == p.conviction && Trading(w.phase)
    && !t.manual && (cfg.requireOfficer ==> t.officer)
  }

  /** Some proposal of the cycle, or the idea a person said yes to. */
  ghost predicate CameFrom(e: Event, op: Op, cfg: GateConfig) {
    match op
    case Cycle(ps, ts, w) =>
      exists k :: 0 <= k < |ps| && k < |ts| && FromProposal(e, ps[k], ts[k], w, cfg)
    case Approve(_, w, t) => SentOn(e, t) && Trading(w.phase)
    case _ => false
  }

  function ContextOf(d: Desk, w: World, t: Turn, avgVolume: real, decisionAge: real, officer: bool): (ctx: Context)
    ensures Shown(ctx, d, w, t)
    ensures ctx.avgVolume == avgVolume && ctx.decisionAge == decisionAge && ctx.officerApproved == officer
  {
    Context(w.account, t.accountAge, t.quote, w.phase, w.minutesToClose, w.isLive, d.startingEquity,
            d.entriesThisCycle, d.tradesToday, t.working, d.lastEntry, d.lastClose, decisionAge, officer, avgVolume)
  }

  lemma ClearedOrder(o: SizedOrder, ctx: Context, cfg: GateConfig, d: Desk, w: World, t: Turn)
    requires Shown(ctx, d, w, t) && Objection(o, ctx, cfg, d, t) == None
    ensures o.symbol !in t.working && !t.wire.killed && t.quote.Some? && Priceable(t.quote.value) && Trading(w.phase)
    ensures cfg.requireOfficer ==> ctx.officerApproved
  {
  }

  lemma HandledFrom(d: Desk, p: Proposal, w: World, t: Turn, cfg: GateConfig)
    ensures var after := Handle(d, p, w, t, cfg).0;
      || after.log == d.log
      || exists e :: after.log == d.log + [e] && (e.Entered? ==> FromProposal(e, p, t, w, cfg))
  {
    if p.action == Close {
      ExitExactlyWhen(d, p, w, t, cfg);
    } else if !t.manual && p.symbol in w.features {
      var ctx := ContextOf(d, w, t, w.features[p.symbol].avgVolume, t.decisionAge, cfg.requireOfficer ==> t.officer);
      EntryApprovedExactlyWhen(d, p, w, t, cfg, ctx);
      if GetsThrough(p, ctx, d, w, t, cfg) {
        ClearedOrder(SizedNow(p, w, t, cfg).value, ctx, cfg, d, w, t);
        SizedSymbol(p, w.features[p.symbol], w.account.funds, t.quote, cfg.limits, w.offsetPct, RoundToTick);
      }
    }
  }

  lemma {:induction false} ExecutedFrom(d: Desk, r: Record, ps: seq<Proposal>, ts: seq<Turn>, w: World,
      cfg: GateConfig, e: Event)
    requires |ps| == |ts| && e.Entered? && e in Executed(d, r, ps, ts, w, cfg).0.log
    ensures e in d.log || exists k :: 0 <= k < |ps| && FromProposal(e, ps[k], ts[k], w, cfg)
    decreases |ps|
  {
    if ps == [] {
    } else {
      var step := Handle(d, ps[0], w, ts[0], cfg);
      HandledFrom(d, ps[0], w, ts[0], cfg);
      ExecutedFrom(step.0, File(r, ps[0].symbol, step.1), ps[1..], ts[1..], w, cfg, e);
      if e !in step.0.log {
        var k :| 0 <= k < |ps[1..]| && FromProposal(e, ps[1..][k], ts[1..][k], w, cfg);
        assert FromProposal(e, ps[k + 1], ts[k + 1], w, cfg);
      }
    }
  }

  lemma ApprovedFrom(d: Desk, index: nat, w: World, t: Turn, cfg: GateConfig, e: Event)
    requires e.Entered? && e in Approving(d, index, w, t, cfg).log && e !in d.log
    ensures SentOn(e, t) && Trading(w.phase)
  {
    if index < |d.awaiting| && d.awaiting[index].PendingEntry? {
      var p := d.awaiting[index].proposal;
      if p.symbol in w.features {
        var ctx := ContextOf(d, w, t, w.features[p.symbol].avgVolume, 0.0, true);
        ApprovedIdeaExactlyWhen(d, index, w, t, cfg, ctx);
        if GetsThrough(p, ctx, d, w, t, cfg) {
          ClearedOrder(SizedNow(p, w, t, cfg).value, ctx, cfg, d, w, t);
          SizedSymbol(p, w.features[p.symbol], w.account.funds, t.quote, cfg.limits, w.offsetPct, RoundToTick);
        }
      }
    }
  }

  lemma DoneFrom(d: Desk, op: Op, cfg: GateConfig, now: real, e: Event)
    requires OpTimely(op, now) && e.Entered? && e in Do(d, op, cfg, now).log
    ensures e in d.log || CameFrom(e, op, cfg)
  {
    match op
    case Cycle(ps, ts, w) => ExecutedFrom(BeginCycle(d), Record(0, 0, 0, []), ps, ts, w, cfg, e);
    case Approve(index, w, t) => if e !in d.log { ApprovedFrom(d, index, w, t, cfg, e); }
    case _ =>
  }

  /**
   * Over any run of a session, every entry was sent on a turn on which no order of its symbol worked, the kill
   * switch was off and the market could be priced; and if it came from a cycle rather than a person's yes,
   * nobody was to be asked and a required officer consented.
   */
  lemma {:induction false} EntriesWereCleared(d: Desk, ops: seq<Op>, cfg: GateConfig, now: real, e: Event)
    requires OnTime(ops, now) && e.Entered? && e in RunAll(d, ops, cfg, now).log
    ensures e in d.log || exists j :: 0 <= j < |ops| && CameFrom(e, ops[j], cfg)
    decreases |ops|
  {
    if ops == [] {
    } else {
      var next := Do(d, ops[0], cfg, now);
      EntriesWereCleared(next, ops[1..], cfg, OpEnd(ops[0], now), e);
      if e in next.log {
        DoneFrom(d, ops[0], cfg, now, e);
      } else {
        var j :| 0 <= j < |ops[1..]| && CameFrom(e, ops[1..][j], cfg);
        assert CameFrom(e, ops[j + 1], cfg);
      }
    }
  }
}
