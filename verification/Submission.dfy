/** A submission from the gate through the order manager: when an approved order really goes out. */
module Submission {
  import opened Common
  import opened Domain
  import opened OrderModel
  import Pacing
  import RiskGate
  import Orders

  /** Around one submission: the switch twice, the clock, the calendar days read, and the wire's answer or silence. */
  datatype Look = Look(
    killed: bool, killedLate: bool, checkedAt: real, placedAt: real, doneAt: real,
    cycle: string, days: Days, answer: Option<seq<Status>>)

  /** What `place_bracket` leaves: the new state, what it handed over, and whether it returned. */
  datatype Placement = Placement(s: Sys, handed: seq<Spec>, returned: bool)

  /** The whole of `place_bracket`: begin, and on a send absorb the answer or block the symbol. */
  function Place(s: Sys, order: SizedOrder, look: Look): Placement {
    var (begun, outcome) := BeginBracket(s, look.placedAt, order, look.cycle, look.days);
    match outcome
    case SymbolBlocked => Placement(begun, [], false)
    case AlreadyKnown => Placement(begun, [], true)
    case AlreadyStored => Placement(begun, [], true)
    case Sent =>
      var specs := BracketSpecs(order, look.cycle, look.days);
      if look.answer.Some? then Placement(ApplyAll(begun, look.answer.value), specs, true)
      else Placement(Block(begun, order.symbol, look.doneAt), specs, false)
  }

  /** Does the submission get as far as the order manager? */
  predicate Reaches(order: SizedOrder, ctx: RiskGate.Context, cfg: RiskGate.GateConfig, look: Look, times: seq<real>) {
    var rateOk := |Pacing.Recent(times, look.checkedAt)| < cfg.maxOrdersPerMinute;
    RiskGate.Failures(order, ctx, cfg, look.killed, rateOk, look.checkedAt) == [] && !look.killedLate
  }

  function WireOf(look: Look, returned: bool): RiskGate.Wire {
    RiskGate.Wire(look.killed, look.killedLate, returned, look.checkedAt, look.doneAt)
  }

  /** `submit` and `place_bracket` together. */
  function Submit(s: Sys, times: seq<real>, order: SizedOrder, ctx: RiskGate.Context, cfg: RiskGate.GateConfig,
      look: Look)
    : (Placement, Option<RiskGate.Reason>)
  {
    var placement := if Reaches(order, ctx, cfg, look, times) then Place(s, order, look) else Placement(s, [], false);
    (placement, RiskGate.SubmitVerdict(order, ctx, cfg, WireOf(look, placement.returned), times))
  }

  // ------------------------------------------------------------------ approved and sent

  /** The symbol has a block that has not expired. */
  predicate Blocked(s: Sys, symbol: string, now: real) {
    symbol in s.mem.blocked && now - s.mem.blocked[symbol] <= BLOCK_TTL
  }

  /** This entry has been submitted before: its ref is in memory or in the store. */
  predicate Known(s: Sys, order: SizedOrder, look: Look) {
    var ref := EntryRef(look.days, look.cycle, order.symbol);
    ref in s.mem.orders || ref in s.disk.rows
  }

  lemma PlaceExactly(s: Sys, order: SizedOrder, look: Look)
    ensures var p := Place(s, order, look);
      && (p.handed != [] <==> !Blocked(s, order.symbol, look.placedAt) && !Known(s, order, look))
      && (p.handed != [] ==>
            p.handed == BracketSpecs(order, look.cycle, look.days) && (p.returned <==> look.answer.Some?))
      && (p.handed == [] ==> (p.returned <==> !Blocked(s, order.symbol, look.placedAt)))
  {
  }

  lemma VerdictExactly(order: SizedOrder, ctx: RiskGate.Context, cfg: RiskGate.GateConfig, w: RiskGate.Wire,
      times: seq<real>)
    ensures var rateOk := |Pacing.Recent(times, w.checkedAt)| < cfg.maxOrdersPerMinute;
      RiskGate.SubmitVerdict(order, ctx, cfg, w, times) == None
      <==> RiskGate.Permits(order, ctx, cfg, w.killed, rateOk, w.checkedAt) && !w.killedLate && w.returned
  {
    RiskGate.ApprovedExactlyWhen(order, ctx, cfg, w.killed,
                                 |Pacing.Recent(times, w.checkedAt)| < cfg.maxOrdersPerMinute, w.checkedAt);
  }

  /** Every check of the gate passes, and the kill switch stays off to the last look. */
  predicate GateOpen(order: SizedOrder, ctx: RiskGate.Context, cfg: RiskGate.GateConfig, look: Look, times: seq<real>) {
    var rateOk := |Pacing.Recent(times, look.checkedAt)| < cfg.maxOrdersPerMinute;
    RiskGate.Permits(order, ctx, cfg, look.killed, rateOk, look.checkedAt) && !look.killedLate
  }

  /**
   * The whole bracket is handed to the broker exactly when the gate is open, the symbol has no unexpired
   * block, and the entry is new.
   */
  lemma HandedExactlyWhen(s: Sys, times: seq<real>, order: SizedOrder, ctx: RiskGate.Context, cfg: RiskGate.GateConfig,
      look: Look)
    ensures var handed := Submit(s, times, order, ctx, cfg, look).0.handed;
      && (handed != [] <==> GateOpen(order, ctx, cfg, look, times) && !Blocked(s, order.symbol, look.placedAt)
                            && !Known(s, order, look))
      && (handed != [] ==> handed == BracketSpecs(order, look.cycle, look.days))
  {
    var rateOk := |Pacing.Recent(times, look.checkedAt)| < cfg.maxOrdersPerMinute;
    RiskGate.ApprovedExactlyWhen(order, ctx, cfg, look.killed, rateOk, look.checkedAt);
    PlaceExactly(s, order, look);
  }

  /**
   * Approval is not sending. A submission is approved and sent exactly when the gate is open, the symbol
   * is not blocked, the entry is new and the broker answered; approved without sending exactly when the
   * entry is known already; and sent without approval exactly when the broker's call raised.
   */
  lemma ApprovedAndSentExactlyWhen(s: Sys, times: seq<real>, order: SizedOrder, ctx: RiskGate.Context,
      cfg: RiskGate.GateConfig, look: Look)
    ensures var (placement, verdict) := Submit(s, times, order, ctx, cfg, look);
      var open := GateOpen(order, ctx, cfg, look, times) && !Blocked(s, order.symbol, look.placedAt);
      && (verdict == None && placement.handed != [] <==> open && !Known(s, order, look) && look.answer.Some?)
      && (verdict == None && placement.handed == [] <==> open && Known(s, order, look))
      && (verdict != None && placement.handed != [] <==> open && !Known(s, order, look) && look.answer.None?)
  {
    var (placement, verdict) := Submit(s, times, order, ctx, cfg, look);
    HandedExactlyWhen(s, times, order, ctx, cfg, look);
    PlaceExactly(s, order, look);
    VerdictExactly(order, ctx, cfg, WireOf(look, placement.returned), times);
  }

  /**
   * Submitting the same entry again in its cycle: once the first has been handed over, no submission of the
   * symbol in that cycle and day hands anything over, though it is approved whenever the gate is open and
   * the symbol not blocked.
   */
  lemma RepeatSendsNothing(s: Sys, times: seq<real>, order: SizedOrder, ctx: RiskGate.Context, cfg: RiskGate.GateConfig,
      look: Look, times': seq<real>, order': SizedOrder, ctx': RiskGate.Context, look': Look)
    requires Submit(s, times, order, ctx, cfg, look).0.handed != []
    requires order'.symbol == order.symbol && look'.cycle == look.cycle && look'.days.entry == look.days.entry
    ensures var t := Submit(s, times, order, ctx, cfg, look).0.s;
      var (placement, verdict) := Submit(t, times', order', ctx', cfg, look');
      && placement.handed == []
      && (verdict == None <==> GateOpen(order', ctx', cfg, look', times') && !Blocked(t, order.symbol, look'.placedAt))
  {
    var t := Submit(s, times, order, ctx, cfg, look).0.s;
    HandedExactlyWhen(s, times, order, ctx, cfg, look);
    HandedIsKnown(s, order, look);
    ApprovedAndSentExactlyWhen(t, times', order', ctx', cfg, look');
  }

  lemma {:induction false} ApplyAllForgetsNone(s: Sys, sts: seq<Status>, ref: string)
    requires ref in s.mem.orders
    ensures ref in ApplyAll(s, sts).mem.orders
  {
    if sts == [] {
    } else {
      ApplyAllForgetsNone(s, sts[..|sts| - 1], ref);
    }
  }

  lemma HandedIsKnown(s: Sys, order: SizedOrder, look: Look)
    requires Place(s, order, look).handed != []
    ensures EntryRef(look.days, look.cycle, order.symbol) in Place(s, order, look).s.mem.orders
  {
    var begun := BeginBracket(s, look.placedAt, order, look.cycle, look.days).0;
    SentIsRecorded(s, look.placedAt, order, look.cycle, look.days, 0);
    if look.answer.Some? {
      ApplyAllForgetsNone(begun, look.answer.value, EntryRef(look.days, look.cycle, order.symbol));
    }
  }

  // ------------------------------------------------------------------ the two objects together

  /** `place_bracket` with its wire call. */
  method PlaceBracket(manager: Orders.OrderManager, order: SizedOrder, look: Look)
    returns (handed: seq<Spec>, returned: bool)
    requires manager.Valid()
    modifies manager, manager.store
    ensures manager.Valid()
    ensures Placement(manager.View(), handed, returned) == Place(old(manager.View()), order, look)
  {
    var outcome;
    outcome, handed := manager.BeginBracket(look.placedAt, order, look.cycle, look.days);
    match outcome
    case SymbolBlocked => returned := false;
    case AlreadyKnown => returned := true;
    case AlreadyStored => returned := true;
    case Sent =>
      returned := look.answer.Some?;
      if returned {
        manager.FinishBracket(look.answer.value);
      } else {
        manager.FailBracket(order.symbol, look.doneAt);
      }
  }

  /** `submit` with the order manager it calls. */
  method SubmitOrder(risk: RiskGate.RiskEngine, manager: Orders.OrderManager, order: SizedOrder, ctx: RiskGate.Context,
      look: Look)
    returns (handed: seq<Spec>, verdict: Option<RiskGate.Reason>)
    requires look.checkedAt <= look.doneAt && risk.Valid(look.checkedAt)
    requires risk.breaker.inFlight == 0 && risk.breaker.overlap >= 1 && manager.Valid()
    modifies risk`dailyLossTripped, risk.breaker, manager, manager.store
    ensures risk.Valid(look.doneAt) && risk.breaker.inFlight == 0 && manager.Valid()
    ensures var (placement, answer) := Submit(old(manager.View()), old(risk.breaker.orderTimes), order, ctx,
                                              risk.cfg, look);
      && manager.View() == placement.s && handed == placement.handed && verdict == answer
      && risk.breaker.orderTimes == RiskGate.TimesAfter(answer, WireOf(look, placement.returned),
                                                        old(risk.breaker.orderTimes))
  {
    handed := [];
    verdict := risk.Evaluate(order, ctx, look.killed, look.checkedAt);
    if verdict.Some? {
      risk.breaker.Later(look.checkedAt, look.doneAt);
      return;
    }
    RiskGate.PassedMeansRoom(order, ctx, risk.cfg, look.killed, |risk.breaker.orderTimes| < risk.cfg.maxOrdersPerMinute,
                             look.checkedAt);
    if look.killedLate {
      risk.breaker.Later(look.checkedAt, look.doneAt);
      return [], Some(RiskGate.KillSwitch);
    }
    var returned;
    handed, returned := PlaceBracket(manager, order, look);
    risk.Place(WireOf(look, returned));
    verdict := if returned then None else Some(RiskGate.Duplicate);
  }
}
