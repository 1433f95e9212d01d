/** Submissions among everything else that happens to the order manager: statuses, passes and crashes. */
module SubmissionRuns {
  import opened Common
  import opened Domain
  import opened Sizing
  import opened OrderModel
  import opened OrderRuns
  import opened Resolution
  import opened Submission
  import Pacing
  import RiskGate

  datatype Attempt = Attempt(order: SizedOrder, ctx: RiskGate.Context, look: Look)

  datatype Act =
    | Try(a: Attempt)                // a submission that came back
    | Cut(a: Attempt, disk: Disk)    // the process died while the broker's answer was awaited, then restarted
    | Other(step: Step)              // a status, a fill, a pass, another write-ahead, a crash

  /**
   * A run so far: the world, the order times of the process, the approvals, and, counted by what caused
   * them, the duplicates suppressed, the sends that raised and the sends whose answer a crash lost.
   */
  datatype Ledger = Ledger(w: World, times: seq<real>, approved: nat, suppressed: nat, unanswered: nat, lost: nat)

  /** What becomes of a submission: turned away, a new entry, or one submitted before. */
  datatype Admission = TurnedAway | NewEntry | KnownEntry

  /** The gate must pass it and its symbol have no unexpired block; then it is new or known. */
  function AdmissionOf(l: Ledger, a: Attempt, cfg: RiskGate.GateConfig): Admission {
    if !GateOpen(a.order, a.ctx, cfg, a.look, l.times) then TurnedAway
    else if Blocked(l.w.s, a.order.symbol, a.look.placedAt) then TurnedAway
    else if Known(l.w.s, a.order, a.look) then KnownEntry
    else NewEntry
  }

  // ------------------------------------------------------------------ an attempt as steps of a run

  function ReportSteps(now: real, sts: seq<Status>): seq<Step> {
    if sts == [] then [] else ReportSteps(now, sts[..|sts| - 1]) + [Reported(now, sts[|sts| - 1])]
  }

  function PlaceStep(a: Attempt): Step {
    OrderRuns.Place(a.look.placedAt, a.order, a.look.cycle, a.look.days)
  }

  /** What follows the wire call, if there was one. */
  function AnswerSteps(s: Sys, a: Attempt): seq<Step> {
    if !IsSend(s, PlaceStep(a)) then []
    else if a.look.answer.Some? then ReportSteps(a.look.doneAt, a.look.answer.value)
    else [Refused(a.look.doneAt, a.order.symbol)]
  }

  function Reached(l: Ledger, a: Attempt, cfg: RiskGate.GateConfig): bool {
    Reaches(a.order, a.ctx, cfg, a.look, l.times)
  }

  function StepsOf(l: Ledger, act: Act, cfg: RiskGate.GateConfig): seq<Step> {
    match act
    case Try(a) => if Reached(l, a, cfg) then [PlaceStep(a)] + AnswerSteps(l.w.s, a) else []
    case Cut(a, disk) => (if Reached(l, a, cfg) then [PlaceStep(a)] else []) + [Crash(Idle(a.look.doneAt), disk)]
    case Other(step) => [step]
  }

  function Verdict(l: Ledger, a: Attempt, cfg: RiskGate.GateConfig): Option<RiskGate.Reason> {
    Submit(l.w.s, l.times, a.order, a.ctx, cfg, a.look).1
  }

  function One(b: bool): nat { if b then 1 else 0 }

  function Posted(l: Ledger, act: Act, cfg: RiskGate.GateConfig): Ledger {
    var w := After(l.w, StepsOf(l, act, cfg));
    match act
    case Try(a) =>
      var returned := Submit(l.w.s, l.times, a.order, a.ctx, cfg, a.look).0.returned;
      Ledger(w, RiskGate.TimesAfter(Verdict(l, a, cfg), WireOf(a.look, returned), l.times),
             l.approved + One(Verdict(l, a, cfg) == None),
             l.suppressed + One(AdmissionOf(l, a, cfg).KnownEntry?),
             l.unanswered + One(AdmissionOf(l, a, cfg).NewEntry? && a.look.answer.None?), l.lost)
    case Cut(a, _) => l.(w := w, times := [], lost := l.lost + One(AdmissionOf(l, a, cfg).NewEntry?))
    case Other(step) => l.(w := w, times := if step.Crash? then [] else l.times)
  }

  function Fold<S, A>(step: (S, A) -> S, s: S, acts: seq<A>): S {
    if acts == [] then s else step(Fold(step, s, acts[..|acts| - 1]), acts[|acts| - 1])
  }

  function Posting(cfg: RiskGate.GateConfig): (Ledger, Act) -> Ledger {
    (l: Ledger, act: Act) => Posted(l, act, cfg)
  }

  function PostedAll(l: Ledger, acts: seq<Act>, cfg: RiskGate.GateConfig): Ledger {
    Fold(Posting(cfg), l, acts)
  }

  function AllSteps(l: Ledger, acts: seq<Act>, cfg: RiskGate.GateConfig): seq<Step> {
    if acts == [] then []
    else
      var n := |acts| - 1;
      AllSteps(l, acts[..n], cfg) + StepsOf(PostedAll(l, acts[..n], cfg), acts[n], cfg)
  }

  /** A process that has just restarted on the given store, with nothing counted. */
  function Opened(disk: Disk, clock: real): Ledger {
    Ledger(Boot(disk, clock), [], 0, 0, 0, 0)
  }

  // ------------------------------------------------------------------ the balance

  /** Everything handed over was approved, raised or was lost; everything approved was handed over or suppressed. */
  predicate Balanced(l: Ledger) {
    l.approved + l.unanswered + l.lost == |l.w.handed| + l.suppressed
  }

  lemma {:induction false} ReportsHandNothing(w: World, now: real, sts: seq<Status>)
    ensures After(w, ReportSteps(now, sts)).handed == w.handed
    ensures After(w, ReportSteps(now, sts)).s == ApplyAll(w.s, sts)
    ensures sts != [] ==> After(w, ReportSteps(now, sts)).clock == now
    ensures sts == [] ==> After(w, ReportSteps(now, sts)) == w
  {
    if sts == [] {
    } else {
      var n := |sts| - 1;
      ReportsHandNothing(w, now, sts[..n]);
      AfterConcat(w, ReportSteps(now, sts[..n]), [Reported(now, sts[n])]);
      AfterOne(After(w, ReportSteps(now, sts[..n])), Reported(now, sts[n]));
    }
  }

  /** The placement hands one entry over or none, and what follows it hands over nothing. */
  lemma PlacedHands(w: World, a: Attempt)
    ensures var v := After(w, [PlaceStep(a)] + AnswerSteps(w.s, a));
      && v.handed == w.handed + (if IsSend(w.s, PlaceStep(a)) then [HandOver(PlaceStep(a))] else [])
      && v.s == Submission.Place(w.s, a.order, a.look).s
      && (a.look.placedAt <= a.look.doneAt ==> v.clock <= a.look.doneAt)
  {
    var step := PlaceStep(a);
    AfterConcat(w, [step], AnswerSteps(w.s, a));
    AfterOne(w, step);
    if IsSend(w.s, step) {
      if a.look.answer.Some? {
        ReportsHandNothing(Next(w, step), a.look.doneAt, a.look.answer.value);
      } else {
        AfterOne(Next(w, step), Refused(a.look.doneAt, a.order.symbol));
      }
    }
  }

  lemma SendExactly(s: Sys, a: Attempt)
    ensures IsSend(s, PlaceStep(a)) <==> !Blocked(s, a.order.symbol, a.look.placedAt) && !Known(s, a.order, a.look)
  {
  }

  lemma OpenReaches(l: Ledger, a: Attempt, cfg: RiskGate.GateConfig)
    ensures Reached(l, a, cfg) <==> GateOpen(a.order, a.ctx, cfg, a.look, l.times)
  {
    var rateOk := |Pacing.Recent(l.times, a.look.checkedAt)| < cfg.maxOrdersPerMinute;
    RiskGate.ApprovedExactlyWhen(a.order, a.ctx, cfg, a.look.killed, rateOk, a.look.checkedAt);
  }

  /** An attempt that comes back is a `submit`, and hands over what `submit` hands over. */
  lemma TryIsSubmit(l: Ledger, a: Attempt, cfg: RiskGate.GateConfig)
    ensures var v := After(l.w, StepsOf(l, Try(a), cfg));
      && v.s == Submit(l.w.s, l.times, a.order, a.ctx, cfg, a.look).0.s
      && |v.handed| == |l.w.handed| + One(AdmissionOf(l, a, cfg).NewEntry?)
  {
    AdmittedIsSent(l, a, cfg);
    if Reached(l, a, cfg) { PlacedHands(l.w, a); }
  }

  /** A new entry is admitted exactly when the placement is reached and hands it over. */
  lemma AdmittedIsSent(l: Ledger, a: Attempt, cfg: RiskGate.GateConfig)
    ensures AdmissionOf(l, a, cfg).NewEntry? <==> Reached(l, a, cfg) && IsSend(l.w.s, PlaceStep(a))
  {
    OpenReaches(l, a, cfg);
    SendExactly(l.w.s, a);
  }

  lemma CrashHandsNothing(w: World, now: real, disk: Disk)
    ensures After(w, [Crash(Idle(now), disk)]).handed == w.handed
  {
    AfterOne(w, Crash(Idle(now), disk));
  }

  lemma PlacedThenCrashed(w: World, step: Step, now: real, disk: Disk)
    requires step.Place?
    ensures |After(w, [step] + [Crash(Idle(now), disk)]).handed| == |w.handed| + One(IsSend(w.s, step))
  {
    AfterConcat(w, [step], [Crash(Idle(now), disk)]);
    AfterOne(w, step);
    CrashHandsNothing(Next(w, step), now, disk);
  }

  lemma CutHands(l: Ledger, a: Attempt, disk: Disk, cfg: RiskGate.GateConfig)
    ensures |After(l.w, StepsOf(l, Cut(a, disk), cfg)).handed| == |l.w.handed| + One(AdmissionOf(l, a, cfg).NewEntry?)
  {
    AdmittedIsSent(l, a, cfg);
    if Reached(l, a, cfg) {
      PlacedThenCrashed(l.w, PlaceStep(a), a.look.doneAt, disk);
    } else {
      assert [] + [Crash(Idle(a.look.doneAt), disk)] == [Crash(Idle(a.look.doneAt), disk)];
      CrashHandsNothing(l.w, a.look.doneAt, disk);
    }
  }

  /** Every way to the broker leads through the gate. */
  predicate ThroughGate(act: Act) {
    act.Other? ==> !act.step.Place?
  }

  lemma PostedBalances(l: Ledger, act: Act, cfg: RiskGate.GateConfig)
    requires Balanced(l) && ThroughGate(act)
    ensures Balanced(Posted(l, act, cfg))
  {
    match act
    case Try(a) =>
      TryIsSubmit(l, a, cfg);
      ApprovedAndSentExactlyWhen(l.w.s, l.times, a.order, a.ctx, cfg, a.look);
    case Cut(a, disk) => CutHands(l, a, disk, cfg);
    case Other(step) => AfterOne(l.w, step);
  }

  /**
   * Over any run of submissions with statuses, passes and crashes among them: the brackets handed over are
   * the approvals that were not for an entry known already, the admitted new ones whose call raised, and
   * those a crash cut off.
   */
  lemma {:induction false} ApprovalsBalanceSends(l: Ledger, acts: seq<Act>, cfg: RiskGate.GateConfig)
    requires Balanced(l) && forall i :: 0 <= i < |acts| ==> ThroughGate(acts[i])
    ensures Balanced(PostedAll(l, acts, cfg))
  {
    if acts == [] {
    } else {
      ApprovalsBalanceSends(l, acts[..|acts| - 1], cfg);
      PostedBalances(PostedAll(l, acts[..|acts| - 1], cfg), acts[|acts| - 1], cfg);
    }
  }

  // ------------------------------------------------------------------ a legal, gated run

  /** The world in which the process of a cut submission died. */
  function Before(l: Ledger, a: Attempt, cfg: RiskGate.GateConfig): World {
    if Reached(l, a, cfg) then Next(l.w, PlaceStep(a)) else l.w
  }

  /** The clock runs forward, and the broker and a crash do what they may. */
  ghost predicate Allowed(l: Ledger, act: Act, cfg: RiskGate.GateConfig) {
    match act
    case Try(a) => l.w.clock <= a.look.placedAt <= a.look.doneAt
    case Cut(a, disk) =>
      && l.w.clock <= a.look.placedAt <= a.look.doneAt
      && Torn(Before(l, a, cfg).s.disk, Before(l, a, cfg).s.disk, disk)
    case Other(step) => !step.Place? && Enabled(l.w, step)
  }

  /** The gate is told what works, and a crash spares the rows that were not being written. */
  ghost predicate Informed(l: Ledger, act: Act, cfg: RiskGate.GateConfig) {
    match act
    case Try(a) => a.ctx.working == WorkingSymbols(l.w.s)
    case Cut(a, disk) =>
      a.ctx.working == WorkingSymbols(l.w.s) && Intact(Before(l, a, cfg), Crash(Idle(a.look.doneAt), disk))
    case Other(step) => Intact(l.w, step)
  }

  /** Each act was all right where it came. */
  ghost predicate Throughout<S, A>(ok: (S, A) -> bool, step: (S, A) -> S, s: S, acts: seq<A>) {
    acts == [] ||
    var init, last := acts[..|acts| - 1], acts[|acts| - 1];
    Throughout(ok, step, s, init) && ok(Fold(step, s, init), last)
  }

  ghost function Allowing(cfg: RiskGate.GateConfig): (Ledger, Act) -> bool {
    (l: Ledger, act: Act) => Allowed(l, act, cfg) && Informed(l, act, cfg)
  }

  ghost predicate AllAllowed(l: Ledger, acts: seq<Act>, cfg: RiskGate.GateConfig) {
    Throughout(Allowing(cfg), Posting(cfg), l, acts)
  }

  lemma {:induction false} ReportsLegal(w: World, now: real, sts: seq<Status>)
    requires w.clock <= now
    ensures Legal(w, ReportSteps(now, sts)) && GatedRun(w, ReportSteps(now, sts))
  {
    if sts == [] {
    } else {
      var n := |sts| - 1;
      var last := Reported(now, sts[n]);
      ReportsLegal(w, now, sts[..n]);
      ReportsHandNothing(w, now, sts[..n]);
      AfterConcat(w, ReportSteps(now, sts[..n]), [last]);
      AfterOne(After(w, ReportSteps(now, sts[..n])), last);
      GatedOne(After(w, ReportSteps(now, sts[..n])), last);
      GatedConcat(w, ReportSteps(now, sts[..n]), [last]);
    }
  }

  /** The gate refuses a symbol that works. */
  lemma ReachedIsGated(l: Ledger, a: Attempt, cfg: RiskGate.GateConfig)
    requires Reached(l, a, cfg) && a.ctx.working == WorkingSymbols(l.w.s)
    ensures a.order.symbol !in WorkingSymbols(l.w.s)
  {
    OpenReaches(l, a, cfg);
  }

  lemma PlacementRuns(w: World, a: Attempt)
    requires w.clock <= a.look.placedAt <= a.look.doneAt && Gated(w, PlaceStep(a))
    ensures Legal(w, [PlaceStep(a)] + AnswerSteps(w.s, a)) && GatedRun(w, [PlaceStep(a)] + AnswerSteps(w.s, a))
  {
    var step := PlaceStep(a);
    AfterOne(w, step);
    GatedOne(w, step);
    AfterConcat(w, [step], AnswerSteps(w.s, a));
    if IsSend(w.s, step) {
      if a.look.answer.Some? {
        ReportsLegal(Next(w, step), a.look.doneAt, a.look.answer.value);
      } else {
        AfterOne(Next(w, step), Refused(a.look.doneAt, a.order.symbol));
        GatedOne(Next(w, step), Refused(a.look.doneAt, a.order.symbol));
      }
    }
    GatedConcat(w, [step], AnswerSteps(w.s, a));
  }

  lemma CutRuns(l: Ledger, a: Attempt, disk: Disk, cfg: RiskGate.GateConfig)
    requires Allowed(l, Cut(a, disk), cfg) && Informed(l, Cut(a, disk), cfg)
    ensures Legal(l.w, StepsOf(l, Cut(a, disk), cfg)) && GatedRun(l.w, StepsOf(l, Cut(a, disk), cfg))
  {
    var crash := Crash(Idle(a.look.doneAt), disk);
    AfterOne(Before(l, a, cfg), crash);
    GatedOne(Before(l, a, cfg), crash);
    if Reached(l, a, cfg) {
      ReachedIsGated(l, a, cfg);
      AfterOne(l.w, PlaceStep(a));
      GatedOne(l.w, PlaceStep(a));
      AfterConcat(l.w, [PlaceStep(a)], [crash]);
      GatedConcat(l.w, [PlaceStep(a)], [crash]);
    } else {
      assert [] + [crash] == [crash];
    }
  }

  lemma ActRuns(l: Ledger, act: Act, cfg: RiskGate.GateConfig)
    requires Allowed(l, act, cfg) && Informed(l, act, cfg)
    ensures Legal(l.w, StepsOf(l, act, cfg)) && GatedRun(l.w, StepsOf(l, act, cfg))
  {
    match act
    case Try(a) =>
      if Reached(l, a, cfg) {
        ReachedIsGated(l, a, cfg);
        PlacementRuns(l.w, a);
      }
    case Cut(a, disk) => CutRuns(l, a, disk, cfg);
    case Other(step) =>
      AfterOne(l.w, step);
      GatedOne(l.w, step);
  }

  /** Submissions and everything else together are a legal run of the order manager, gated throughout. */
  lemma {:induction false} ActsRun(l: Ledger, acts: seq<Act>, cfg: RiskGate.GateConfig)
    requires AllAllowed(l, acts, cfg)
    ensures Legal(l.w, AllSteps(l, acts, cfg)) && GatedRun(l.w, AllSteps(l, acts, cfg))
    ensures After(l.w, AllSteps(l, acts, cfg)) == PostedAll(l, acts, cfg).w
  {
    if acts == [] {
    } else {
      var n := |acts| - 1;
      var before := PostedAll(l, acts[..n], cfg);
      ActsRun(l, acts[..n], cfg);
      ActRuns(before, acts[n], cfg);
      AfterConcat(l.w, AllSteps(l, acts[..n], cfg), StepsOf(before, acts[n], cfg));
      GatedConcat(l.w, AllSteps(l, acts[..n], cfg), StepsOf(before, acts[n], cfg));
    }
  }

  /** So no entry is handed over twice, whatever is submitted again after whatever crash. */
  lemma SubmittedAtMostOnce(disk: Disk, clock: real, acts: seq<Act>, cfg: RiskGate.GateConfig, i: nat, j: nat)
    requires Sound(disk) && AllAllowed(Opened(disk, clock), acts, cfg)
    requires i < j < |PostedAll(Opened(disk, clock), acts, cfg).w.handed|
    ensures var handed := PostedAll(Opened(disk, clock), acts, cfg).w.handed; handed[i].ref != handed[j].ref
  {
    ActsRun(Opened(disk, clock), acts, cfg);
    BootInv(disk, clock);
    RunKeepsInv(Boot(disk, clock), AllSteps(Opened(disk, clock), acts, cfg));
  }

  /**
   * A maybe-sent order is resolved before its symbol trades again: in any run of submissions, statuses,
   * passes and crashes, between two brackets in one symbol each leg of the first was taken out of work.
   */
  lemma ResolvedBeforeTradedAgain(disk: Disk, clock: real, acts: seq<Act>, cfg: RiskGate.GateConfig, p: nat, q: nat,
      x: nat)
    requires Sound(disk) && AllAllowed(Opened(disk, clock), acts, cfg)
    requires p < q < |AllSteps(Opened(disk, clock), acts, cfg)| && x < 3
    requires var steps := AllSteps(Opened(disk, clock), acts, cfg);
      && IsSend(After(Boot(disk, clock), steps[..p]).s, steps[p])
      && IsSend(After(Boot(disk, clock), steps[..q]).s, steps[q])
      && steps[p].order.symbol == steps[q].order.symbol
    ensures var steps := AllSteps(Opened(disk, clock), acts, cfg);
      var leg := Legs(steps[p].order, steps[p].cycle, steps[p].days)[x].ref;
      exists k :: p < k < q && EndsAt(Boot(disk, clock), steps, k, leg, steps[p].order.symbol)
  {
    ActsRun(Opened(disk, clock), acts, cfg);
    ResolvedInBetween(disk, clock, AllSteps(Opened(disk, clock), acts, cfg), p, q, x);
  }

  lemma OpenIsRefused(l: Ledger, a: Attempt, cfg: RiskGate.GateConfig, ref: string)
    requires Open(l.w.s, ref, a.order.symbol) && a.ctx.working == WorkingSymbols(l.w.s)
    ensures Verdict(l, a, cfg) != None && Submit(l.w.s, l.times, a.order, a.ctx, cfg, a.look).0.handed == []
  {
    assert a.order.symbol in WorkingSymbols(l.w.s);
    ApprovedAndSentExactlyWhen(l.w.s, l.times, a.order, a.ctx, cfg, a.look);
  }

  /**
   * Until then, after whatever failures and crashes, every submission in the symbol, in any cycle, is refused
   * and sends nothing: it takes a step that ends a leg for one to be approved or sent.
   */
  lemma UnresolvedIsRefused(disk: Disk, clock: real, acts: seq<Act>, cfg: RiskGate.GateConfig, p: nat, x: nat,
      a: Attempt)
    requires Sound(disk) && AllAllowed(Opened(disk, clock), acts, cfg)
    requires p < |AllSteps(Opened(disk, clock), acts, cfg)| && x < 3
    requires var steps := AllSteps(Opened(disk, clock), acts, cfg);
      IsSend(After(Boot(disk, clock), steps[..p]).s, steps[p]) && steps[p].order.symbol == a.order.symbol
    requires a.ctx.working == WorkingSymbols(PostedAll(Opened(disk, clock), acts, cfg).w.s)
    requires var l := PostedAll(Opened(disk, clock), acts, cfg);
      Verdict(l, a, cfg) == None || Submit(l.w.s, l.times, a.order, a.ctx, cfg, a.look).0.handed != []
    ensures var steps := AllSteps(Opened(disk, clock), acts, cfg);
      var leg := Legs(steps[p].order, steps[p].cycle, steps[p].days)[x].ref;
      exists k :: p < k < |steps| && EndsAt(Boot(disk, clock), steps, k, leg, a.order.symbol)
  {
    var l, steps := PostedAll(Opened(disk, clock), acts, cfg), AllSteps(Opened(disk, clock), acts, cfg);
    var leg := Legs(steps[p].order, steps[p].cycle, steps[p].days)[x].ref;
    ActsRun(Opened(disk, clock), acts, cfg);
    SentUntilEnded(disk, clock, steps, p, |steps|, x);
    assert steps[..|steps|] == steps;
    if Open(l.w.s, leg, a.order.symbol) { OpenIsRefused(l, a, cfg, leg); }
  }

  // ------------------------------------------------------------------ approved and not sent, in a run

  const ONE_SHARE := SizedOrder("A", Buy, 1, 10.0, 9.0, 12.0, 1.0, 10.0, "")

  const PLAIN_RULES := RiskGate.GateConfig(
    Limits(0.01, 0.005, 0.5, 0.0, 0.05), 15.0, 60.0, 60.0, 60.0, 0.05, 1.0, 1000.0, 0.0, 5, 2, 0.03, 10, 5,
    300.0, 300.0, false, false)

  const CALM := RiskGate.Context(
    RiskGate.Account("DU1", Funds(1000.0, 1000.0), map[]), 0.0, Some(Quote(None, None, Some(10.0), false, 0.0)),
    RiskGate.Rth, 60.0, false, 0.0, 0, 0, {}, map[], map[], 0.0, true, 0.0)

  const ONE_DAY := Days("d", "d", "d")

  /** The refs of the three legs. */
  function LegRefs(): seq<string> {
    var legs := Legs(ONE_SHARE, "c", ONE_DAY);
    [legs[0].ref, legs[1].ref, legs[2].ref]
  }

  /** One status of this name for each ref. */
  function Named(refs: seq<string>, name: string): (sts: seq<Status>)
    ensures |sts| == |refs|
    ensures forall i :: 0 <= i < |refs| ==> sts[i].ref == refs[i] && sts[i].name == name && sts[i].filled == 0.0
  {
    seq(|refs|, i requires 0 <= i < |refs| => Status(refs[i], i + 1, None, name, 0.0, 0.0, None, "A", "BUY"))
  }

  /** Answered at once, by three working legs. */
  function FirstTry(): Attempt {
    Attempt(ONE_SHARE, CALM, Look(false, false, 0.0, 0.0, 0.0, "c", ONE_DAY, Some(Named(LegRefs(), "Submitted"))))
  }

  /** Ten minutes later, once the cooldown has run out, in the same cycle. */
  function SecondTry(): Attempt {
    Attempt(ONE_SHARE, CALM.(lastEntry := map["A" := 0.0], tradesToday := 1, entriesThisCycle := 1),
            Look(false, false, 600.0, 600.0, 600.0, "c", ONE_DAY, None))
  }

  lemma CalmQuote()
    ensures CALM.quote.value.Mid() == Some(10.0)
    ensures RiskGate.FreshQuote(CALM.quote, PLAIN_RULES) && CollarOk(ONE_SHARE, CALM.quote, PLAIN_RULES.limits)
  {
  }

  lemma CalmFunds()
    ensures RiskOk(ONE_SHARE, CALM.account.funds, PLAIN_RULES.limits)
    ensures NotionalOk(ONE_SHARE, CALM.account.funds, PLAIN_RULES.limits)
    ensures BuyingPowerOk(ONE_SHARE, CALM.account.funds, PLAIN_RULES.limits)
  {
    assert RiskCap(1000.0, PLAIN_RULES.limits) == 10.0;
    assert NotionalCap(CALM.account.funds, PLAIN_RULES.limits) == 500.0;
    assert UsablePower(CALM.account.funds, PLAIN_RULES.limits) == 1000.0;
  }

  lemma OpenLikeCalm(entered: map<string, real>, trades: int, entries: int, look: Look, times: seq<real>)
    requires trades < 10 && entries < 2 && !look.killed && !look.killedLate
    requires "A" in entered ==> look.checkedAt - entered["A"] >= 300.0
    requires |Pacing.Recent(times, look.checkedAt)| < 5
    ensures GateOpen(ONE_SHARE, CALM.(lastEntry := entered, tradesToday := trades, entriesThisCycle := entries),
                     PLAIN_RULES, look, times)
  {
    CalmQuote();
    CalmFunds();
    assert CALM.account.Open() == map[];
  }

  lemma FirstIsOpen()
    ensures GateOpen(ONE_SHARE, CALM, PLAIN_RULES, FirstTry().look, [])
  {
    OpenLikeCalm(map[], 0, 0, FirstTry().look, []);
  }

  lemma SecondIsOpen()
    ensures GateOpen(ONE_SHARE, SecondTry().ctx, PLAIN_RULES, SecondTry().look, [0.0])
  {
    assert Pacing.Recent([0.0], 600.0) == [];
    OpenLikeCalm(map["A" := 0.0], 1, 1, SecondTry().look, [0.0]);
  }

  /** Statuses for known orders keep what is known and blocked. */
  lemma {:induction false} KnownStatuses(s: Sys, sts: seq<Status>)
    requires Mirror(s) && forall i :: 0 <= i < |sts| ==> sts[i].ref in s.mem.orders
    ensures var t := ApplyAll(s, sts);
      && Mirror(t) && t.mem.orders.Keys == s.mem.orders.Keys && t.mem.blocked == s.mem.blocked
  {
    if sts == [] {
    } else {
      KnownStatuses(s, sts[..|sts| - 1]);
      ApplyStatusMirror(ApplyAll(s, sts[..|sts| - 1]), sts[|sts| - 1]);
    }
  }

  predicate IsCancelled(s: Sys, ref: string) {
    ref in s.mem.orders && s.mem.orders[ref].state == Cancelled
  }

  /** A cancelling status cancels its order, and leaves cancelled ones so. */
  lemma CancelOne(s: Sys, st: Status, r: string)
    requires Mirror(s) && st.ref in s.mem.orders && st.name == "Cancelled" && (r == st.ref || IsCancelled(s, r))
    ensures IsCancelled(ApplyStatus(s, st), r)
  {
    assert NewState(s.mem.orders[st.ref].state, st) == Cancelled;
  }

  /** Cancelling statuses for known orders. */
  ghost predicate CancelsKnown(sts: seq<Status>, known: set<string>) {
    forall k :: 0 <= k < |sts| ==> sts[k].ref in known && sts[k].name == "Cancelled"
  }

  lemma CancelsPrefix(s: Sys, sts: seq<Status>, n: nat)
    requires Mirror(s) && CancelsKnown(sts, s.mem.orders.Keys) && n <= |sts|
    ensures CancelsKnown(sts[..n], s.mem.orders.Keys)
    ensures Mirror(ApplyAll(s, sts[..n])) && ApplyAll(s, sts[..n]).mem.orders.Keys == s.mem.orders.Keys
  {
    KnownStatuses(s, sts[..n]);
  }

  /** Cancelled one after another, they all stop working. */
  lemma {:induction false} CancelledStop(s: Sys, sts: seq<Status>, i: nat)
    requires Mirror(s) && CancelsKnown(sts, s.mem.orders.Keys) && i < |sts|
    ensures IsCancelled(ApplyAll(s, sts), sts[i].ref)
  {
    var n := |sts| - 1;
    CancelsPrefix(s, sts, n);
    if i == n {
    } else {
      CancelledStop(s, sts[..n], i);
    }
    CancelOne(ApplyAll(s, sts[..n]), sts[n], sts[i].ref);
  }

  lemma NoneWorks(s: Sys)
    requires forall r :: r in s.mem.orders ==> IsCancelled(s, r)
    ensures WorkingSymbols(s) == {}
  {
  }

  lemma AllCancelled(s: Sys, refs: seq<string>)
    requires Mirror(s) && s.mem.orders.Keys == set r | r in refs
    ensures WorkingSymbols(ApplyAll(s, Named(refs, "Cancelled"))) == {}
  {
    var sts := Named(refs, "Cancelled");
    KnownStatuses(s, sts);
    forall r | r in ApplyAll(s, sts).mem.orders ensures IsCancelled(ApplyAll(s, sts), r) {
      var i :| 0 <= i < |refs| && refs[i] == r;
      CancelledStop(s, sts, i);
    }
    NoneWorks(ApplyAll(s, sts));
  }

  // ------------------------------------------------------------------ the run itself

  function CancelActs(now: real, sts: seq<Status>): seq<Act> {
    if sts == [] then [] else CancelActs(now, sts[..|sts| - 1]) + [Other(Reported(now, sts[|sts| - 1]))]
  }

  lemma {:induction false} FoldConcat<S, A>(step: (S, A) -> S, s: S, first: seq<A>, second: seq<A>)
    ensures Fold(step, s, first + second) == Fold(step, Fold(step, s, first), second)
  {
    if second == [] {
      assert first + second == first;
    } else {
      var n := |second| - 1;
      assert (first + second)[..|first + second| - 1] == first + second[..n];
      FoldConcat(step, s, first, second[..n]);
    }
  }

  lemma {:induction false} ThroughoutConcat<S, A>(ok: (S, A) -> bool, step: (S, A) -> S, s: S, first: seq<A>,
      second: seq<A>)
    requires Throughout(ok, step, s, first) && Throughout(ok, step, Fold(step, s, first), second)
    ensures Throughout(ok, step, s, first + second)
  {
    if second == [] {
      assert first + second == first;
    } else {
      var n := |second| - 1;
      assert (first + second)[..|first + second| - 1] == first + second[..n];
      ThroughoutConcat(ok, step, s, first, second[..n]);
      FoldConcat(step, s, first, second[..n]);
    }
  }

  lemma FoldOne<S, A>(ok: (S, A) -> bool, step: (S, A) -> S, s: S, act: A)
    ensures Fold(step, s, [act]) == step(s, act)
    ensures Throughout(ok, step, s, [act]) <==> ok(s, act)
  {
    assert [act][..0] == [];
    assert Fold(step, s, []) == s;
  }

  lemma PostedConcat(l: Ledger, first: seq<Act>, second: seq<Act>, cfg: RiskGate.GateConfig)
    ensures PostedAll(l, first + second, cfg) == PostedAll(PostedAll(l, first, cfg), second, cfg)
  {
    FoldConcat(Posting(cfg), l, first, second);
  }

  lemma AllowedConcat(l: Ledger, first: seq<Act>, second: seq<Act>, cfg: RiskGate.GateConfig)
    requires AllAllowed(l, first, cfg) && AllAllowed(PostedAll(l, first, cfg), second, cfg)
    ensures AllAllowed(l, first + second, cfg)
  {
    ThroughoutConcat(Allowing(cfg), Posting(cfg), l, first, second);
  }

  lemma PostedOne(l: Ledger, act: Act, cfg: RiskGate.GateConfig)
    ensures PostedAll(l, [act], cfg) == Posted(l, act, cfg)
    ensures AllAllowed(l, [act], cfg) <==> Allowed(l, act, cfg) && Informed(l, act, cfg)
  {
    FoldOne(Allowing(cfg), Posting(cfg), l, act);
  }

  /** Statuses one after another change the state as they do in one list, and nothing that is counted. */
  lemma {:induction false} CancelActsPost(l: Ledger, now: real, sts: seq<Status>, cfg: RiskGate.GateConfig)
    requires l.w.clock <= now
    ensures AllAllowed(l, CancelActs(now, sts), cfg)
    ensures var after := PostedAll(l, CancelActs(now, sts), cfg);
      && after.w.s == ApplyAll(l.w.s, sts) && after.w.handed == l.w.handed && after.w.clock <= now
      && after == l.(w := after.w)
  {
    if sts == [] {
    } else {
      var n := |sts| - 1;
      var before, act := PostedAll(l, CancelActs(now, sts[..n]), cfg), Other(Reported(now, sts[n]));
      CancelActsPost(l, now, sts[..n], cfg);
      PostedConcat(l, CancelActs(now, sts[..n]), [act], cfg);
      PostedOne(before, act, cfg);
      AllowedConcat(l, CancelActs(now, sts[..n]), [act], cfg);
      AfterOne(before.w, act.step);
    }
  }

  lemma {:induction false} WriteAheadKeys(s: Sys, legs: seq<ManagedOrder>, n: nat)
    requires n <= |legs|
    ensures WriteAhead(s, legs, n).mem.orders.Keys == s.mem.orders.Keys + set i | 0 <= i < n :: legs[i].ref
  {
    if n == 0 {
    } else {
      WriteAheadKeys(s, legs, n - 1);
    }
  }

  const NOTHING := Disk(map[], map[])

  lemma NothingBooted()
    ensures Sound(NOTHING) && Boot(NOTHING, 0.0) == World(Sys(FRESH, NOTHING), 0.0, [])
  {
    assert Load(Sys(FRESH, NOTHING)).mem.orders == map[] && Load(Sys(FRESH, NOTHING)).mem.perms == map[];
  }

  /** Knows exactly these orders, and blocks no symbol. */
  ghost predicate KnowsJust(s: Sys, refs: seq<string>) {
    Mirror(s) && s.mem.orders.Keys == (set r | r in refs) && s.mem.blocked == map[]
  }

  /** The first bracket goes out from nothing and leaves its three legs known, and nothing blocked. */
  lemma FirstBegun()
    ensures var (s, outcome) := BeginBracket(Sys(FRESH, NOTHING), 0.0, ONE_SHARE, "c", ONE_DAY);
      outcome == Sent && KnowsJust(s, LegRefs())
  {
    var s0 := Unblock(Sys(FRESH, NOTHING), 0.0);
    var legs := Legs(ONE_SHARE, "c", ONE_DAY);
    LegsOurs(ONE_SHARE, "c", ONE_DAY);
    assert Mirror(s0);
    WriteAheadMirror(s0, legs, 3);
    WriteAheadKeeps(s0, legs, 3);
    WriteAheadKeys(s0, legs, 3);
    assert s0.mem.blocked == map[];
    assert (set i | 0 <= i < 3 :: legs[i].ref) == set r | r in LegRefs();
  }

  /** An admitted new attempt that is answered: what it counts. */
  lemma AnsweredCounts(l: Ledger, a: Attempt, cfg: RiskGate.GateConfig)
    requires AdmissionOf(l, a, cfg) == NewEntry && a.look.answer.Some? && a.look.placedAt <= a.look.doneAt
    ensures var after := Posted(l, Try(a), cfg);
      && after.approved == l.approved + 1 && after.suppressed == l.suppressed && |after.w.handed| == |l.w.handed| + 1
      && after.times == Pacing.Recent(l.times, a.look.checkedAt) + [a.look.doneAt] && after.w.clock <= a.look.doneAt
  {
    OpenReaches(l, a, cfg);
    PlacedHands(l.w, a);
    SendExactly(l.w.s, a);
    ApprovedAndSentExactlyWhen(l.w.s, l.times, a.order, a.ctx, cfg, a.look);
  }

  /** What it leaves. */
  lemma AnsweredLeaves(l: Ledger, a: Attempt, cfg: RiskGate.GateConfig)
    requires AdmissionOf(l, a, cfg) == NewEntry && a.look.answer.Some?
    ensures Posted(l, Try(a), cfg).w.s
         == ApplyAll(BeginBracket(l.w.s, a.look.placedAt, a.order, a.look.cycle, a.look.days).0, a.look.answer.value)
  {
    OpenReaches(l, a, cfg);
    PlacedHands(l.w, a);
  }

  /** An admitted duplicate. */
  lemma DuplicatePosted(l: Ledger, a: Attempt, cfg: RiskGate.GateConfig)
    requires AdmissionOf(l, a, cfg) == KnownEntry
    ensures var after := Posted(l, Try(a), cfg);
      after.approved == l.approved + 1 && after.suppressed == l.suppressed + 1 && |after.w.handed| == |l.w.handed|
  {
    TryIsSubmit(l, a, cfg);
    ApprovedAndSentExactlyWhen(l.w.s, l.times, a.order, a.ctx, cfg, a.look);
  }

  lemma FirstAdmitted(l: Ledger)
    requires l.w == World(Sys(FRESH, NOTHING), 0.0, []) && l.times == []
    ensures AdmissionOf(l, FirstTry(), PLAIN_RULES) == NewEntry
  {
    FirstIsOpen();
    FirstIsNew(l.w.s);
  }

  lemma FirstIsNew(s: Sys)
    requires s == Sys(FRESH, NOTHING)
    ensures !Blocked(s, "A", 0.0) && !Known(s, ONE_SHARE, FirstTry().look)
  {
  }

  lemma FirstAllowed(l: Ledger)
    requires l.w == World(Sys(FRESH, NOTHING), 0.0, [])
    ensures Allowed(l, Try(FirstTry()), PLAIN_RULES) && Informed(l, Try(FirstTry()), PLAIN_RULES)
  {
    NoneWorks(l.w.s);
  }

  lemma StillKnown(s: Sys, refs: seq<string>, name: string)
    requires KnowsJust(s, refs)
    ensures KnowsJust(ApplyAll(s, Named(refs, name)), refs)
  {
    KnownStatuses(s, Named(refs, name));
  }

  lemma AnsweredKnows(l: Ledger, a: Attempt, cfg: RiskGate.GateConfig, begun: Sys, refs: seq<string>, name: string)
    requires AdmissionOf(l, a, cfg) == NewEntry && a.look.placedAt <= a.look.doneAt
    requires begun == BeginBracket(l.w.s, a.look.placedAt, a.order, a.look.cycle, a.look.days).0
    requires a.look.answer == Some(Named(refs, name)) && KnowsJust(begun, refs)
    ensures KnowsJust(Posted(l, Try(a), cfg).w.s, refs)
  {
    AnsweredLeaves(l, a, cfg);
    StillKnown(begun, refs, name);
  }

  lemma FirstKnows(l: Ledger)
    requires l.w == World(Sys(FRESH, NOTHING), 0.0, []) && l.times == []
    ensures KnowsJust(Posted(l, Try(FirstTry()), PLAIN_RULES).w.s, LegRefs())
  {
    var a := FirstTry();
    assert a.order == ONE_SHARE && a.look.cycle == "c" && a.look.days == ONE_DAY && a.look.placedAt == 0.0;
    FirstAdmitted(l);
    FirstBegun();
    AnsweredKnows(l, a, PLAIN_RULES, BeginBracket(l.w.s, 0.0, ONE_SHARE, "c", ONE_DAY).0, LegRefs(), "Submitted");
  }

  lemma FirstCounts(l: Ledger, a: Attempt, cfg: RiskGate.GateConfig)
    requires l.w == World(Sys(FRESH, NOTHING), 0.0, []) && l.times == [] && a == FirstTry() && cfg == PLAIN_RULES
    ensures var after := Posted(l, Try(a), cfg);
      && after.approved == l.approved + 1 && after.suppressed == l.suppressed && |after.w.handed| == 1
      && after.times == [0.0] && after.w.clock <= 0.0
  {
    FirstAdmitted(l);
    AnsweredCounts(l, a, cfg);
  }

  /** The cancelled legs work no more, and are still known. */
  lemma CancelledPosted(first: Ledger, refs: seq<string>)
    requires first.w.clock <= 0.0 && KnowsJust(first.w.s, refs)
    ensures AllAllowed(first, CancelActs(1.0, Named(refs, "Cancelled")), PLAIN_RULES)
    ensures var after := PostedAll(first, CancelActs(1.0, Named(refs, "Cancelled")), PLAIN_RULES);
      && after == first.(w := after.w) && after.w.handed == first.w.handed && after.w.clock <= 1.0
      && WorkingSymbols(after.w.s) == {} && KnowsJust(after.w.s, refs)
  {
    CancelActsPost(first, 1.0, Named(refs, "Cancelled"), PLAIN_RULES);
    StillKnown(first.w.s, refs, "Cancelled");
    AllCancelled(first.w.s, refs);
  }

  lemma SecondKnown(l: Ledger)
    requires KnowsJust(l.w.s, LegRefs())
    ensures Known(l.w.s, ONE_SHARE, SecondTry().look) && !Blocked(l.w.s, "A", 600.0)
  {
    assert LegRefs()[0] in LegRefs();
  }

  lemma SecondAdmitted(l: Ledger)
    requires l.times == [0.0] && KnowsJust(l.w.s, LegRefs())
    ensures AdmissionOf(l, SecondTry(), PLAIN_RULES) == KnownEntry
  {
    SecondIsOpen();
    SecondKnown(l);
  }

  lemma SecondAllowed(l: Ledger)
    requires l.w.clock <= 1.0 && WorkingSymbols(l.w.s) == {}
    ensures Allowed(l, Try(SecondTry()), PLAIN_RULES) && Informed(l, Try(SecondTry()), PLAIN_RULES)
  {
  }

  /** One act, several, and one more. */
  lemma InStages(l: Ledger, first: Act, between: seq<Act>, last: Act, cfg: RiskGate.GateConfig)
    requires Allowed(l, first, cfg) && Informed(l, first, cfg)
    requires AllAllowed(Posted(l, first, cfg), between, cfg)
    requires var before := PostedAll(Posted(l, first, cfg), between, cfg);
             Allowed(before, last, cfg) && Informed(before, last, cfg)
    ensures AllAllowed(l, [first] + between + [last], cfg)
    ensures PostedAll(l, [first] + between + [last], cfg)
         == Posted(PostedAll(Posted(l, first, cfg), between, cfg), last, cfg)
  {
    var before := PostedAll(Posted(l, first, cfg), between, cfg);
    PostedOne(l, first, cfg);
    PostedOne(before, last, cfg);
    PostedConcat(l, [first], between, cfg);
    AllowedConcat(l, [first], between, cfg);
    PostedConcat(l, [first] + between, [last], cfg);
    AllowedConcat(l, [first] + between, [last], cfg);
  }

  lemma IdleAfterFirst(first: Ledger, refs: seq<string>, b: Attempt, cfg: RiskGate.GateConfig) returns (idle: Ledger)
    requires refs == LegRefs() && b == SecondTry() && cfg == PLAIN_RULES
    requires first.w.clock <= 0.0 && KnowsJust(first.w.s, refs) && first.times == [0.0]
    ensures AllAllowed(first, CancelActs(1.0, Named(refs, "Cancelled")), cfg)
    ensures idle == PostedAll(first, CancelActs(1.0, Named(refs, "Cancelled")), cfg)
    ensures idle == first.(w := idle.w) && idle.w.handed == first.w.handed
    ensures Allowed(idle, Try(b), cfg) && Informed(idle, Try(b), cfg) && AdmissionOf(idle, b, cfg) == KnownEntry
  {
    idle := PostedAll(first, CancelActs(1.0, Named(refs, "Cancelled")), cfg);
    CancelledPosted(first, refs);
    SecondAdmitted(idle);
    SecondAllowed(idle);
  }

  /** Whether a run can happen, and what it comes to. */
  datatype Tally = Tally(legal: bool, approved: nat, sent: nat, suppressed: nat)

  ghost function TallyOf(l: Ledger, acts: seq<Act>, cfg: RiskGate.GateConfig): Tally {
    var after := PostedAll(l, acts, cfg);
    Tally(AllAllowed(l, acts, cfg), after.approved, |after.w.handed|, after.suppressed)
  }

  /** A send, what changes no count, and a suppressed duplicate. */
  lemma SentThenSuppressed(l: Ledger, a: Attempt, between: seq<Act>, b: Attempt, cfg: RiskGate.GateConfig)
    requires Allowed(l, Try(a), cfg) && Informed(l, Try(a), cfg)
    requires var first := Posted(l, Try(a), cfg);
      && first.approved == 1 && first.suppressed == 0 && |first.w.handed| == 1 && AllAllowed(first, between, cfg)
      && var idle := PostedAll(first, between, cfg);
         && idle == first.(w := idle.w) && idle.w.handed == first.w.handed
         && Allowed(idle, Try(b), cfg) && Informed(idle, Try(b), cfg) && AdmissionOf(idle, b, cfg) == KnownEntry
    ensures TallyOf(l, [Try(a)] + between + [Try(b)], cfg) == Tally(true, 2, 1, 1)
  {
    InStages(l, Try(a), between, Try(b), cfg);
    DuplicatePosted(PostedAll(Posted(l, Try(a), cfg), between, cfg), b, cfg);
  }

  /**
   * A run from an empty store that is approved twice and sends once: the first entry goes out, its legs
   * are cancelled at the broker, and after the cooldown the same cycle proposes the symbol again. The
   * second approval hands over nothing.
   */
  lemma ApprovedWithoutSending(l: Ledger, a: Attempt, refs: seq<string>, b: Attempt, cfg: RiskGate.GateConfig)
    requires l == Opened(NOTHING, 0.0) && a == FirstTry() && refs == LegRefs() && b == SecondTry() && cfg == PLAIN_RULES
    ensures TallyOf(l, [Try(a)] + CancelActs(1.0, Named(refs, "Cancelled")) + [Try(b)], cfg) == Tally(true, 2, 1, 1)
  {
    NothingBooted();
    FirstAllowed(l);
    FirstCounts(l, a, cfg);
    FirstKnows(l);
    var idle := IdleAfterFirst(Posted(l, Try(a), cfg), refs, b, cfg);
    SentThenSuppressed(l, a, CancelActs(1.0, Named(refs, "Cancelled")), b, cfg);
  }
}
