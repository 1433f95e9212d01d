/** One session: the decision cycle's execution step, approvals, and the bookkeeping the gate reads back. */
module Session {
  import opened Common
  import opened Domain
  import opened Sizing
  import opened RiskGate
  import Pacing

  /** What the session noted, in order. An entry was decided at `since` and noted, once submitted, at `at`. */
  datatype Event =
    | Entered(symbol: string, conviction: real, since: real, at: real)
    | Exited(symbol: string, at: real)
    | CycleBegan

  datatype Refusal =
    | NoFeatures | LowConviction | Unsizeable | NoPosition | CloseFailed | Gate(reason: Reason)

  /** A trade idea waiting for a person. */
  datatype Pending =
    | PendingEntry(proposal: Proposal, order: SizedOrder)
    | PendingClose(symbol: string, action: Action, quantity: real, isLong: bool)

  /** The session state the gate depends on, and the history that produced it. */
  datatype Desk = Desk(
    startingEquity: real, tradesToday: int, entriesThisCycle: int,
    lastEntry: map<string, real>, lastClose: map<string, real>,
    orderTimes: seq<real>, lossTripped: bool, awaiting: seq<Pending>, log: seq<Event>)

  datatype Record = Record(approved: nat, rejected: nat, pending: nat, rejections: seq<(string, Refusal)>)

  /** What one cycle is told once. */
  datatype World = World(
    account: Account, phase: Phase, minutesToClose: real, isLive: bool, offsetPct: real,
    features: map<string, Features>)

  /** What it is told while it handles one proposal. */
  datatype Turn = Turn(
    quote: Option<Quote>, accountAge: real, decisionAge: real, working: set<string>, officer: bool,
    manual: bool, wire: Wire)

  datatype Outcome = Approved | Waiting(idea: Pending) | Refused(refusal: Refusal)

  const MIN_CONVICTION := 0.55

  // ------------------------------------------------------------------ bookkeeping

  function FreshDesk(equity: real): Desk {
    Desk(equity, 0, 0, map[], map[], [], false, [], [])
  }

  /** `note_entry`. */
  function NoteEntry(d: Desk, p: Proposal, since: real, at: real): Desk {
    d.(lastEntry := d.lastEntry[p.symbol := at], tradesToday := d.tradesToday + 1,
       entriesThisCycle := d.entriesThisCycle + 1, log := d.log + [Entered(p.symbol, p.conviction, since, at)])
  }

  /** `note_close`. */
  function NoteClose(d: Desk, symbol: string, at: real): Desk {
    d.(lastClose := d.lastClose[symbol := at], log := d.log + [Exited(symbol, at)])
  }

  function BeginCycle(d: Desk): Desk {
    d.(entriesThisCycle := 0, log := d.log + [CycleBegan])
  }

  function ContextFor(d: Desk, w: World, t: Turn, f: Features, decisionAge: real, officer: bool): Context {
    Context(w.account, t.accountAge, t.quote, w.phase, w.minutesToClose, w.isLive, d.startingEquity,
            d.entriesThisCycle, d.tradesToday, t.working, d.lastEntry, d.lastClose, decisionAge, officer, f.avgVolume)
  }

  /** `submit` followed by `note_entry` when it was approved. */
  function Submitting(d: Desk, p: Proposal, o: SizedOrder, ctx: Context, cfg: GateConfig, wire: Wire)
    : (Desk, Option<Reason>)
  {
    var verdict := SubmitVerdict(o, ctx, cfg, wire, d.orderTimes);
    var checked := d.(orderTimes := TimesAfter(verdict, wire, d.orderTimes),
                      lossTripped := d.lossTripped || LossBreached(ctx, cfg));
    (if verdict == None then NoteEntry(checked, p, wire.checkedAt, wire.doneAt) else checked, verdict)
  }

  // ------------------------------------------------------------------ one proposal

  function HandleClose(d: Desk, symbol: string, w: World, t: Turn, cfg: GateConfig): (Desk, Outcome) {
    var open := w.account.Open();
    if symbol !in open then (d, Refused(NoPosition))
    else
      var verdict := CloseVerdict(symbol, t.quote, w.phase, t.working, cfg, t.wire.killed);
      var held := open[symbol];
      if verdict.Some? then (d, Refused(Gate(verdict.value)))
      else if t.manual then
        var idea := PendingClose(symbol, if held.IsLong() then Sell else Buy, held.quantity, held.IsLong());
        (d.(awaiting := d.awaiting + [idea]), Waiting(idea))
      else if t.wire.returned then (NoteClose(d, symbol, t.wire.doneAt), Approved)
      else (d, Refused(CloseFailed))
  }

  /** A sized entry waits for a person, or is submitted. */
  function Sending(d: Desk, p: Proposal, o: SizedOrder, f: Features, w: World, t: Turn, cfg: GateConfig)
    : (Desk, Outcome)
  {
    if t.manual then
      var idea := PendingEntry(p, o);
      (d.(awaiting := d.awaiting + [idea]), Waiting(idea))
    else
      var ctx := ContextFor(d, w, t, f, t.decisionAge, cfg.requireOfficer ==> t.officer);
      var r := Submitting(d, p, o, ctx, cfg, t.wire);
      (r.0, if r.1 == None then Approved else Refused(Gate(r.1.value)))
  }

  function HandleEntry(d: Desk, p: Proposal, w: World, t: Turn, cfg: GateConfig): (Desk, Outcome) {
    if p.symbol !in w.features then (d, Refused(NoFeatures))
    else if p.conviction < MIN_CONVICTION then (d, Refused(LowConviction))
    else
      var f := w.features[p.symbol];
      var sized := SizeProposal(p, f, w.account.funds, t.quote, cfg.limits, w.offsetPct, RoundToTick);
      if sized.None? then (d, Refused(Unsizeable))
      else Sending(d, p, sized.value, f, w, t, cfg)
  }

  function Handle(d: Desk, p: Proposal, w: World, t: Turn, cfg: GateConfig): (Desk, Outcome) {
    if p.action == Close then HandleClose(d, p.symbol, w, t, cfg) else HandleEntry(d, p, w, t, cfg)
  }

  /** Refusals that the cycle lists without counting them as rejected. */
  predicate CountsAsRejected(refusal: Refusal) { !refusal.NoPosition? && !refusal.CloseFailed? }

  function File(r: Record, symbol: string, outcome: Outcome): Record {
    match outcome
    case Approved => r.(approved := r.approved + 1)
    case Waiting(_) => r.(pending := r.pending + 1)
    case Refused(refusal) =>
      r.(rejected := r.rejected + if CountsAsRejected(refusal) then 1 else 0,
         rejections := r.rejections + [(symbol, refusal)])
  }

  /** `_execute`: every proposal in turn. */
  function Executed(d: Desk, r: Record, ps: seq<Proposal>, ts: seq<Turn>, w: World, cfg: GateConfig): (Desk, Record)
    requires |ps| == |ts|
    decreases |ps|
  {
    if ps == [] then (d, r)
    else
      var step := Handle(d, ps[0], w, ts[0], cfg);
      Executed(step.0, File(r, ps[0].symbol, step.1), ps[1..], ts[1..], w, cfg)
  }

  // ------------------------------------------------------------------ approvals

  /** `approve_proposal`: take the idea off the list and judge it afresh. */
  function Approving(d: Desk, index: nat, w: World, t: Turn, cfg: GateConfig): Desk {
    if index >= |d.awaiting| then d
    else
      var idea := d.awaiting[index];
      var rest := d.(awaiting := d.awaiting[..index] + d.awaiting[index + 1..]);
      match idea
      case PendingClose(symbol, _, _, _) =>
        if CloseVerdict(symbol, t.quote, w.phase, t.working, cfg, t.wire.killed) == None && t.wire.returned
        then NoteClose(rest, symbol, t.wire.doneAt)
        else rest
      case PendingEntry(p, _) =>
        if p.symbol !in w.features then rest
        else
          var f := w.features[p.symbol];
          var sized := SizeProposal(p, f, w.account.funds, t.quote, cfg.limits, w.offsetPct, RoundToTick);
          if sized.None? then rest
          else Submitting(rest, p, sized.value, ContextFor(rest, w, t, f, 0.0, true), cfg, t.wire).0
  }

  // ------------------------------------------------------------------ counting what happened

  function EntryCount(log: seq<Event>): nat {
    if log == [] then 0
    else EntryCount(log[..|log| - 1]) + if log[|log| - 1].Entered? then 1 else 0
  }

  /** Entries since the latest cycle began. */
  function SinceCycle(log: seq<Event>): nat {
    if log == [] || log[|log| - 1].CycleBegan? then 0
    else SinceCycle(log[..|log| - 1]) + if log[|log| - 1].Entered? then 1 else 0
  }

  ghost predicate CyclesCapped(log: seq<Event>, cap: int) {
    if log == [] then cap >= 0 else CyclesCapped(log[..|log| - 1], cap) && SinceCycle(log) <= cap
  }

  function LatestEntries(log: seq<Event>): map<string, real> {
    if log == [] then map[]
    else
      var before, last := LatestEntries(log[..|log| - 1]), log[|log| - 1];
      if last.Entered? then before[last.symbol := last.at] else before
  }

  function LatestCloses(log: seq<Event>): map<string, real> {
    if log == [] then map[]
    else
      var before, last := LatestCloses(log[..|log| - 1]), log[|log| - 1];
      if last.Exited? then before[last.symbol := last.at] else before
  }

  /** Each event was decided after the one before it was over, and all of them by `now`. */
  ghost predicate Chronicle(log: seq<Event>, now: real) {
    log == [] ||
    var before, last := log[..|log| - 1], log[|log| - 1];
    match last
    case Entered(_, _, since, at) => since <= at <= now && Chronicle(before, since)
    case Exited(_, at) => at <= now && Chronicle(before, at)
    case CycleBegan => Chronicle(before, now)
  }

  /** An entry that was decided late enough after an earlier event in its symbol. */
  predicate Keeps(earlier: Event, later: Event, cfg: GateConfig) {
    match earlier
    case Entered(symbol, _, _, at) => later.Entered? && later.symbol == symbol ==> later.since - at >= cfg.cooldown
    case Exited(symbol, at) => later.Entered? && later.symbol == symbol ==> later.since - at >= cfg.flipFlopGuard
    case CycleBegan => true
  }

  ghost predicate Spaced(log: seq<Event>, cfg: GateConfig) {
    forall i, j :: 0 <= i < j < |log| ==> Keeps(log[i], log[j], cfg)
  }

  ghost predicate Convinced(log: seq<Event>, awaiting: seq<Pending>) {
    && (forall i :: 0 <= i < |log| && log[i].Entered? ==> log[i].conviction >= MIN_CONVICTION)
    && (forall i :: 0 <= i < |awaiting| && awaiting[i].PendingEntry? ==>
          awaiting[i].proposal.conviction >= MIN_CONVICTION)
  }

  /** The counters and notes say what happened, and what happened kept every rule. */
  ghost predicate Orderly(d: Desk, now: real, cfg: GateConfig) {
    && d.tradesToday == EntryCount(d.log) <= cfg.maxTradesPerDay
    && d.entriesThisCycle == SinceCycle(d.log) && CyclesCapped(d.log, cfg.maxEntriesPerCycle)
    && d.lastEntry == LatestEntries(d.log) && d.lastClose == LatestCloses(d.log)
    && Chronicle(d.log, now) && Spaced(d.log, cfg) && Convinced(d.log, d.awaiting)
  }

  // ------------------------------------------------------------------ what every event keeps

  lemma {:induction false} ChronicleLater(log: seq<Event>, now: real, later: real)
    requires Chronicle(log, now) && now <= later
    ensures Chronicle(log, later)
  {
    if log == [] || !log[|log| - 1].CycleBegan? {
    } else {
      ChronicleLater(log[..|log| - 1], now, later);
    }
  }

  lemma OrderlyLater(d: Desk, now: real, later: real, cfg: GateConfig)
    requires Orderly(d, now, cfg) && now <= later
    ensures Orderly(d, later, cfg)
  {
    ChronicleLater(d.log, now, later);
  }

  /** When the event after `last`'s predecessors was decided. */
  function DecidedBy(last: Event, now: real): real {
    match last
    case Entered(_, _, since, _) => since
    case Exited(_, at) => at
    case CycleBegan => now
  }

  /** The note of a symbol is no older than any of its events. */
  lemma {:induction false} NotesAreLatest(log: seq<Event>, now: real, i: nat)
    requires Chronicle(log, now) && i < |log|
    ensures log[i].Entered? ==>
              log[i].symbol in LatestEntries(log) && log[i].at <= LatestEntries(log)[log[i].symbol] <= now
    ensures log[i].Exited? ==>
              log[i].symbol in LatestCloses(log) && log[i].at <= LatestCloses(log)[log[i].symbol] <= now
  {
    var before, last := log[..|log| - 1], log[|log| - 1];
    if i == |log| - 1 {
    } else {
      NotesAreLatest(before, DecidedBy(last, now), i);
    }
  }

  lemma SpacedGrows(log: seq<Event>, e: Event, cfg: GateConfig)
    requires Spaced(log, cfg) && forall i :: 0 <= i < |log| ==> Keeps(log[i], e, cfg)
    ensures Spaced(log + [e], cfg)
  {
  }

  lemma Grown<T>(log: seq<T>, e: T)
    ensures |log + [e]| == |log| + 1 && (log + [e])[..|log|] == log && (log + [e])[|log|] == e
  {
  }

  lemma NoteEntryKeeps(d: Desk, p: Proposal, now: real, since: real, at: real, cfg: GateConfig)
    requires Orderly(d, now, cfg) && now <= since <= at && p.conviction >= MIN_CONVICTION
    requires d.tradesToday < cfg.maxTradesPerDay && d.entriesThisCycle < cfg.maxEntriesPerCycle
    requires !Within(d.lastEntry, p.symbol, cfg.cooldown, since)
    requires !Within(d.lastClose, p.symbol, cfg.flipFlopGuard, since)
    ensures Orderly(NoteEntry(d, p, since, at), at, cfg)
  {
    var e := Entered(p.symbol, p.conviction, since, at);
    Grown(d.log, e);
    ChronicleLater(d.log, now, since);
    forall i | 0 <= i < |d.log| ensures Keeps(d.log[i], e, cfg) { NotesAreLatest(d.log, now, i); }
    SpacedGrows(d.log, e, cfg);
  }

  lemma NoteCloseKeeps(d: Desk, symbol: string, now: real, at: real, cfg: GateConfig)
    requires Orderly(d, now, cfg) && now <= at
    ensures Orderly(NoteClose(d, symbol, at), at, cfg)
  {
    var e := Exited(symbol, at);
    Grown(d.log, e);
    ChronicleLater(d.log, now, at);
    SpacedGrows(d.log, e, cfg);
  }

  lemma BeginCycleKeeps(d: Desk, now: real, cfg: GateConfig)
    requires Orderly(d, now, cfg) && cfg.maxEntriesPerCycle >= 0
    ensures Orderly(BeginCycle(d), now, cfg)
  {
    Grown(d.log, CycleBegan);
    SpacedGrows(d.log, CycleBegan, cfg);
  }

  /** The submission and the note it leaves keep every rule, because the gate read the notes. */
  lemma SubmittingKeeps(d: Desk, p: Proposal, o: SizedOrder, ctx: Context, cfg: GateConfig, wire: Wire, now: real)
    requires Orderly(d, now, cfg) && now <= wire.checkedAt <= wire.doneAt && p.conviction >= MIN_CONVICTION
    requires o.symbol == p.symbol && ctx.tradesToday == d.tradesToday && ctx.entriesThisCycle == d.entriesThisCycle
    requires ctx.lastEntry == d.lastEntry && ctx.lastClose == d.lastClose
    ensures Orderly(Submitting(d, p, o, ctx, cfg, wire).0, wire.doneAt, cfg)
  {
    var verdict := SubmitVerdict(o, ctx, cfg, wire, d.orderTimes);
    var checked := d.(orderTimes := TimesAfter(verdict, wire, d.orderTimes),
                      lossTripped := d.lossTripped || LossBreached(ctx, cfg));
    assert Orderly(checked, now, cfg);
    if verdict == None {
      ApprovalReadsNotes(o, ctx, cfg, wire, d.orderTimes);
      NoteEntryKeeps(checked, p, now, wire.checkedAt, wire.doneAt, cfg);
    } else {
      OrderlyLater(checked, now, wire.doneAt, cfg);
    }
  }

  lemma ApprovalReadsNotes(o: SizedOrder, ctx: Context, cfg: GateConfig, wire: Wire, times: seq<real>)
    requires SubmitVerdict(o, ctx, cfg, wire, times) == None
    ensures ctx.tradesToday < cfg.maxTradesPerDay && ctx.entriesThisCycle < cfg.maxEntriesPerCycle
    ensures !Within(ctx.lastEntry, o.symbol, cfg.cooldown, wire.checkedAt)
    ensures !Within(ctx.lastClose, o.symbol, cfg.flipFlopGuard, wire.checkedAt)
  {
    ApprovedExactlyWhen(o, ctx, cfg, wire.killed, |Pacing.Recent(times, wire.checkedAt)| < cfg.maxOrdersPerMinute,
                        wire.checkedAt);
  }

  // ------------------------------------------------------------------ what every step keeps

  predicate Timely(t: Turn, now: real) { now <= t.wire.checkedAt <= t.wire.doneAt }

  predicate AllTimely(ts: seq<Turn>, now: real) {
    ts == [] || (Timely(ts[0], now) && AllTimely(ts[1..], ts[0].wire.doneAt))
  }

  function EndOf(ts: seq<Turn>, now: real): real {
    if ts == [] then now else ts[|ts| - 1].wire.doneAt
  }

  lemma HandleKeeps(d: Desk, p: Proposal, w: World, t: Turn, cfg: GateConfig, now: real)
    requires Orderly(d, now, cfg) && Timely(t, now)
    ensures Orderly(Handle(d, p, w, t, cfg).0, t.wire.doneAt, cfg)
  {
    OrderlyLater(d, now, t.wire.doneAt, cfg);
    if p.action == Close {
      if Handle(d, p, w, t, cfg).1.Approved? { NoteCloseKeeps(d, p.symbol, now, t.wire.doneAt, cfg); }
    } else if p.symbol in w.features && p.conviction >= MIN_CONVICTION && !t.manual {
      var f := w.features[p.symbol];
      var sized := SizeProposal(p, f, w.account.funds, t.quote, cfg.limits, w.offsetPct, RoundToTick);
      if sized.Some? {
        SizedSymbol(p, f, w.account.funds, t.quote, cfg.limits, w.offsetPct, RoundToTick);
        var ctx := ContextFor(d, w, t, f, t.decisionAge, cfg.requireOfficer ==> t.officer);
        SubmittingKeeps(d, p, sized.value, ctx, cfg, t.wire, now);
      }
    }
  }

  lemma {:induction false} ExecutedKeeps(d: Desk, r: Record, ps: seq<Proposal>, ts: seq<Turn>, w: World,
      cfg: GateConfig, now: real)
    requires |ps| == |ts| && Orderly(d, now, cfg) && AllTimely(ts, now)
    ensures Orderly(Executed(d, r, ps, ts, w, cfg).0, EndOf(ts, now), cfg)
    decreases |ps|
  {
    if ps == [] {
    } else {
      HandleKeeps(d, ps[0], w, ts[0], cfg, now);
      var step := Handle(d, ps[0], w, ts[0], cfg);
      ExecutedKeeps(step.0, File(r, ps[0].symbol, step.1), ps[1..], ts[1..], w, cfg, ts[0].wire.doneAt);
    }
  }

  lemma ApprovingKeeps(d: Desk, index: nat, w: World, t: Turn, cfg: GateConfig, now: real)
    requires Orderly(d, now, cfg) && Timely(t, now)
    ensures Orderly(Approving(d, index, w, t, cfg), t.wire.doneAt, cfg)
  {
    OrderlyLater(d, now, t.wire.doneAt, cfg);
    if index < |d.awaiting| {
      var rest := d.(awaiting := d.awaiting[..index] + d.awaiting[index + 1..]);
      assert Orderly(rest, now, cfg);
      OrderlyLater(rest, now, t.wire.doneAt, cfg);
      match d.awaiting[index]
      case PendingClose(symbol, _, _, _) =>
        NoteCloseKeeps(rest, symbol, now, t.wire.doneAt, cfg);
      case PendingEntry(p, _) =>
        if p.symbol in w.features {
          var f := w.features[p.symbol];
          var sized := SizeProposal(p, f, w.account.funds, t.quote, cfg.limits, w.offsetPct, RoundToTick);
          if sized.Some? {
            SizedSymbol(p, f, w.account.funds, t.quote, cfg.limits, w.offsetPct, RoundToTick);
            SubmittingKeeps(rest, p, sized.value, ContextFor(rest, w, t, f, 0.0, true), cfg, t.wire, now);
          }
        }
    }
  }

  // ------------------------------------------------------------------ whole runs

  /** What can happen to the desk between awaits; a flattened position is noted as closed. */
  datatype Op =
    | Cycle(proposals: seq<Proposal>, turns: seq<Turn>, world: World)
    | Approve(index: nat, seen: World, turn: Turn)
    | Flatten(symbol: string, at: real)
    | Drop(index: nat)
    | NewSession(equity: real)

  predicate OpTimely(op: Op, now: real) {
    match op
    case Cycle(ps, ts, _) => |ps| == |ts| && AllTimely(ts, now)
    case Approve(_, _, t) => Timely(t, now)
    case Flatten(_, at) => now <= at
    case Drop(_) => true
    case NewSession(_) => true
  }

  function OpEnd(op: Op, now: real): real {
    match op
    case Cycle(_, ts, _) => EndOf(ts, now)
    case Approve(_, _, t) => t.wire.doneAt
    case Flatten(_, at) => at
    case Drop(_) => now
    case NewSession(_) => now
  }

  function Do(d: Desk, op: Op, cfg: GateConfig, now: real): Desk
    requires OpTimely(op, now)
  {
    match op
    case Cycle(ps, ts, w) => Executed(BeginCycle(d), Record(0, 0, 0, []), ps, ts, w, cfg).0
    case Approve(index, w, t) => Approving(d, index, w, t, cfg)
    case Flatten(symbol, at) => NoteClose(d, symbol, at)
    case Drop(index) =>
      if index < |d.awaiting| then d.(awaiting := d.awaiting[..index] + d.awaiting[index + 1..]) else d
    case NewSession(equity) => FreshDesk(equity)
  }

  predicate OnTime(ops: seq<Op>, now: real) {
    ops == [] || (OpTimely(ops[0], now) && OnTime(ops[1..], OpEnd(ops[0], now)))
  }

  function RunAll(d: Desk, ops: seq<Op>, cfg: GateConfig, now: real): Desk
    requires OnTime(ops, now)
    decreases |ops|
  {
    if ops == [] then d else RunAll(Do(d, ops[0], cfg, now), ops[1..], cfg, OpEnd(ops[0], now))
  }

  lemma DoKeeps(d: Desk, op: Op, cfg: GateConfig, now: real)
    requires OpTimely(op, now) && Orderly(d, now, cfg) && cfg.maxTradesPerDay >= 0 && cfg.maxEntriesPerCycle >= 0
    ensures Orderly(Do(d, op, cfg, now), OpEnd(op, now), cfg)
  {
    match op
    case Cycle(ps, ts, w) =>
      BeginCycleKeeps(d, now, cfg);
      ExecutedKeeps(BeginCycle(d), Record(0, 0, 0, []), ps, ts, w, cfg, now);
    case Approve(index, w, t) => ApprovingKeeps(d, index, w, t, cfg, now);
    case Flatten(symbol, at) => NoteCloseKeeps(d, symbol, now, at, cfg);
    case Drop(_) =>
    case NewSession(_) =>
  }

  lemma {:induction false} RunKeeps(d: Desk, ops: seq<Op>, cfg: GateConfig, now: real) returns (end: real)
    requires OnTime(ops, now) && Orderly(d, now, cfg) && cfg.maxTradesPerDay >= 0 && cfg.maxEntriesPerCycle >= 0
    ensures Orderly(RunAll(d, ops, cfg, now), end, cfg)
    decreases |ops|
  {
    end := now;
    if ops == [] {
    } else {
      DoKeeps(d, ops[0], cfg, now);
      end := RunKeeps(Do(d, ops[0], cfg, now), ops[1..], cfg, OpEnd(ops[0], now));
    }
  }

  lemma {:induction false} CycleHasRoom(log: seq<Event>, cap: int, i: nat, j: nat)
    requires CyclesCapped(log, cap) && i <= j <= |log|
    requires forall k :: i <= k < j ==> !log[k].CycleBegan?
    ensures EntryCount(log[i..j]) <= cap
    decreases |log|
  {
    if j < |log| {
      assert log[..|log| - 1][i..j] == log[i..j];
      CycleHasRoom(log[..|log| - 1], cap, i, j);
    } else {
      assert log[i..j] == log[i..];
      SuffixWithin(log, i);
    }
  }

  lemma {:induction false} SuffixWithin(log: seq<Event>, i: nat)
    requires i <= |log| && forall k :: i <= k < |log| ==> !log[k].CycleBegan?
    ensures EntryCount(log[i..]) <= SinceCycle(log)
    decreases |log|
  {
    if i == |log| {
    } else {
      var before := log[..|log| - 1];
      SuffixWithin(before, i);
      assert log[i..][..|log[i..]| - 1] == before[i..];
    }
  }

  /**
   * Over any run of cycles, approvals, flattenings and resets, whatever the market, the model, the broker
   * and the people do: the session's entries stay under the daily cap and each cycle's under its own;
   * entries in one symbol are the cooldown apart, none follows a noted close of its symbol within the
   * flip-flop guard, and none was proposed with less than the least conviction.
   */
  lemma SessionsAreSafe(ops: seq<Op>, equity: real, cfg: GateConfig, now: real, i: nat, j: nat)
    requires OnTime(ops, now) && cfg.maxTradesPerDay >= 0 && cfg.maxEntriesPerCycle >= 0
    ensures var log := RunAll(FreshDesk(equity), ops, cfg, now).log;
      && EntryCount(log) <= cfg.maxTradesPerDay
      && (i <= j <= |log| && (forall k :: i <= k < j ==> !log[k].CycleBegan?) ==>
            EntryCount(log[i..j]) <= cfg.maxEntriesPerCycle)
      && (j < |log| && log[j].Entered? ==> log[j].conviction >= MIN_CONVICTION && log[j].since <= log[j].at)
      && (i < j < |log| ==> Keeps(log[i], log[j], cfg))
  {
    var end := RunKeeps(FreshDesk(equity), ops, cfg, now);
    var log := RunAll(FreshDesk(equity), ops, cfg, now).log;
    if j < |log| && log[j].Entered? { EntryTimes(log, end, j); }
    if i <= j <= |log| && forall k :: i <= k < j ==> !log[k].CycleBegan? {
      CycleHasRoom(log, cfg.maxEntriesPerCycle, i, j);
    }
  }

  lemma {:induction false} EntryTimes(log: seq<Event>, now: real, i: nat)
    requires Chronicle(log, now) && i < |log| && log[i].Entered?
    ensures log[i].since <= log[i].at
  {
    var before, last := log[..|log| - 1], log[|log| - 1];
    if i == |log| - 1 {
    } else {
      EntryTimes(before, DecidedBy(last, now), i);
    }
  }

  // ------------------------------------------------------------------ what a cycle records

  function Tally(r: Record): int { r.approved + r.pending + |r.rejections| }

  /** The rejected count is that of the listed refusals that count. */
  ghost predicate Filed(r: Record) {
    r.rejected == |Filter((x: (string, Refusal)) => CountsAsRejected(x.1), r.rejections)|
  }

  /** A person will be asked. */
  predicate Asked(p: Proposal, w: World, t: Turn, cfg: GateConfig) {
    t.manual &&
    if p.action == Close then
      p.symbol in w.account.Open() && CloseVerdict(p.symbol, t.quote, w.phase, t.working, cfg, t.wire.killed) == None
    else
      && p.symbol in w.features && p.conviction >= MIN_CONVICTION
      && SizeProposal(p, w.features[p.symbol], w.account.funds, t.quote, cfg.limits, w.offsetPct, RoundToTick).Some?
  }

  /** An exit with nothing to close, or one that the gate passed and the broker did not take. */
  predicate IdleExit(p: Proposal, w: World, t: Turn, cfg: GateConfig) {
    && p.action == Close
    && (p.symbol in w.account.Open() ==>
          !t.manual && !t.wire.returned
          && CloseVerdict(p.symbol, t.quote, w.phase, t.working, cfg, t.wire.killed) == None)
  }

  function Tell(b: bool): nat { if b then 1 else 0 }

  /** How many of the proposals a person will be asked about; it depends on none of them before. */
  function AskedCount(ps: seq<Proposal>, ts: seq<Turn>, w: World, cfg: GateConfig): nat
    requires |ps| == |ts|
    decreases |ps|
  {
    if ps == [] then 0 else Tell(Asked(ps[0], w, ts[0], cfg)) + AskedCount(ps[1..], ts[1..], w, cfg)
  }

  function IdleExits(ps: seq<Proposal>, ts: seq<Turn>, w: World, cfg: GateConfig): nat
    requires |ps| == |ts|
    decreases |ps|
  {
    if ps == [] then 0 else Tell(IdleExit(ps[0], w, ts[0], cfg)) + IdleExits(ps[1..], ts[1..], w, cfg)
  }

  lemma CloseIsFiled(d: Desk, symbol: string, p: Proposal, w: World, t: Turn, cfg: GateConfig)
    requires p.action == Close && p.symbol == symbol
    ensures var outcome := HandleClose(d, symbol, w, t, cfg).1;
      && (outcome.Waiting? <==> Asked(p, w, t, cfg))
      && (outcome.Refused? && !CountsAsRejected(outcome.refusal) <==> IdleExit(p, w, t, cfg))
  {
  }

  lemma EntryIsFiled(d: Desk, p: Proposal, w: World, t: Turn, cfg: GateConfig)
    requires p.action != Close
    ensures var outcome := HandleEntry(d, p, w, t, cfg).1;
      (outcome.Waiting? <==> Asked(p, w, t, cfg)) && (outcome.Refused? ==> CountsAsRejected(outcome.refusal))
  {
  }

  /** Whatever happened before, how a proposal ends says this of it. */
  lemma HandleIsFiled(d: Desk, p: Proposal, w: World, t: Turn, cfg: GateConfig)
    ensures var outcome := Handle(d, p, w, t, cfg).1;
      && (outcome.Waiting? <==> Asked(p, w, t, cfg))
      && (outcome.Refused? && !CountsAsRejected(outcome.refusal) <==> IdleExit(p, w, t, cfg))
  {
    if p.action == Close {
      CloseIsFiled(d, p.symbol, p, w, t, cfg);
    } else {
      EntryIsFiled(d, p, w, t, cfg);
    }
  }

  /** What one cycle files: every proposal once; to a person whom it asks; and uncounted the exits that did nothing. */
  ghost predicate FiledAs(before: Record, after: Record, ps: seq<Proposal>, asked: nat, idle: nat) {
    && Tally(after) == Tally(before) + |ps|
    && after.pending == before.pending + asked
    && |after.rejections| - after.rejected == |before.rejections| - before.rejected + idle
  }

  lemma FileKeeps(r: Record, symbol: string, outcome: Outcome)
    requires Filed(r)
    ensures Filed(File(r, symbol, outcome))
  {
    if outcome.Refused? {
      FilterConcat((x: (string, Refusal)) => CountsAsRejected(x.1), r.rejections, [(symbol, outcome.refusal)]);
    }
  }

  lemma FiledNext(r: Record, p: Proposal, outcome: Outcome, asked: bool, idle: bool)
    requires outcome.Waiting? <==> asked
    requires outcome.Refused? && !CountsAsRejected(outcome.refusal) <==> idle
    ensures FiledAs(r, File(r, p.symbol, outcome), [p], Tell(asked), Tell(idle))
  {
  }

  /**
   * Every proposal ends in exactly one of three places: approved, waiting for a person, or on the list of
   * rejections. Which of them wait, and which are listed without being counted as rejected, is settled by
   * what the cycle is told and not by what came before: the first are those that pass up to the point of
   * sending in manual mode, the second the exits with nothing to close and those the gate passed and the
   * broker did not take.
   */
  lemma {:induction false} EveryProposalIsFiled(d: Desk, r: Record, ps: seq<Proposal>, ts: seq<Turn>, w: World,
      cfg: GateConfig)
    requires |ps| == |ts| && Filed(r)
    ensures Filed(Executed(d, r, ps, ts, w, cfg).1)
    ensures FiledAs(r, Executed(d, r, ps, ts, w, cfg).1, ps, AskedCount(ps, ts, w, cfg), IdleExits(ps, ts, w, cfg))
    decreases |ps|
  {
    if ps == [] {
    } else {
      var step := Handle(d, ps[0], w, ts[0], cfg);
      HandleIsFiled(d, ps[0], w, ts[0], cfg);
      FileKeeps(r, ps[0].symbol, step.1);
      FiledNext(r, ps[0], step.1, Asked(ps[0], w, ts[0], cfg), IdleExit(ps[0], w, ts[0], cfg));
      EveryProposalIsFiled(step.0, File(r, ps[0].symbol, step.1), ps[1..], ts[1..], w, cfg);
    }
  }

  ghost predicate Accounts(d: Desk, outcome: Outcome, after: Desk) {
    && d.log <= after.log && |after.log| - |d.log| == (if outcome.Approved? then 1 else 0)
    && d.awaiting <= after.awaiting && |after.awaiting| - |d.awaiting| == (if outcome.Waiting? then 1 else 0)
  }

  lemma HandleAccounts(d: Desk, p: Proposal, w: World, t: Turn, cfg: GateConfig)
    ensures Accounts(d, Handle(d, p, w, t, cfg).1, Handle(d, p, w, t, cfg).0)
  {
    if p.action == Close {
      var after := HandleClose(d, p.symbol, w, t, cfg);
      assert Accounts(d, after.1, after.0);
    } else {
      var after := HandleEntry(d, p, w, t, cfg);
      assert Accounts(d, after.1, after.0);
    }
  }

  /** Approvals are exactly the entries and exits noted, and waiting ideas those added to the list. */
  lemma {:induction false} ApprovedIsDone(d: Desk, r: Record, ps: seq<Proposal>, ts: seq<Turn>, w: World,
      cfg: GateConfig)
    requires |ps| == |ts|
    ensures var after := Executed(d, r, ps, ts, w, cfg);
      && after.1.approved - r.approved == |after.0.log| - |d.log|
      && after.1.pending - r.pending == |after.0.awaiting| - |d.awaiting|
      && d.log <= after.0.log && d.awaiting <= after.0.awaiting
    decreases |ps|
  {
    if ps == [] {
    } else {
      HandleAccounts(d, ps[0], w, ts[0], cfg);
      var step := Handle(d, ps[0], w, ts[0], cfg);
      ApprovedIsDone(step.0, File(r, ps[0].symbol, step.1), ps[1..], ts[1..], w, cfg);
    }
  }

  /** With a person in the loop, a cycle sends nothing: it changes only the list of waiting ideas. */
  lemma {:induction false} ManualSendsNothing(d: Desk, r: Record, ps: seq<Proposal>, ts: seq<Turn>, w: World,
      cfg: GateConfig)
    requires |ps| == |ts| && forall t :: t in ts ==> t.manual
    ensures Executed(d, r, ps, ts, w, cfg).0 == d.(awaiting := Executed(d, r, ps, ts, w, cfg).0.awaiting)
    ensures Executed(d, r, ps, ts, w, cfg).1.approved == r.approved
    decreases |ps|
  {
    if ps == [] {
    } else {
      assert ts[0] in ts;
      var step := Handle(d, ps[0], w, ts[0], cfg);
      ManualSendsNothing(step.0, File(r, ps[0].symbol, step.1), ps[1..], ts[1..], w, cfg);
    }
  }

  // ------------------------------------------------------------------ the kill switch

  /** Nothing has been sent in between: no event, no count and no note has changed. */
  ghost predicate Quiet(before: Desk, after: Desk) {
    && after.log == before.log && after.tradesToday == before.tradesToday
    && after.entriesThisCycle == before.entriesThisCycle
    && after.lastEntry == before.lastEntry && after.lastClose == before.lastClose
  }

  lemma KilledSubmit(d: Desk, p: Proposal, o: SizedOrder, ctx: Context, cfg: GateConfig, wire: Wire)
    requires wire.killed || wire.killedLate
    ensures Quiet(d, Submitting(d, p, o, ctx, cfg, wire).0) && Submitting(d, p, o, ctx, cfg, wire).1 != None
    ensures Submitting(d, p, o, ctx, cfg, wire).0.awaiting == d.awaiting
  {
    if wire.killed {
      ApprovedExactlyWhen(o, ctx, cfg, wire.killed,
                          |Pacing.Recent(d.orderTimes, wire.checkedAt)| < cfg.maxOrdersPerMinute, wire.checkedAt);
    }
  }

  lemma KilledHandle(d: Desk, p: Proposal, w: World, t: Turn, cfg: GateConfig)
    requires t.wire.killed
    ensures Quiet(d, Handle(d, p, w, t, cfg).0) && !Handle(d, p, w, t, cfg).1.Approved?
    ensures p.action == Close ==> Handle(d, p, w, t, cfg).0 == d && Handle(d, p, w, t, cfg).1.Refused?
  {
    if p.action != Close && p.symbol in w.features {
      var f := w.features[p.symbol];
      var sized := SizeProposal(p, f, w.account.funds, t.quote, cfg.limits, w.offsetPct, RoundToTick);
      if sized.Some? {
        KilledSubmit(d, p, sized.value, ContextFor(d, w, t, f, t.decisionAge, cfg.requireOfficer ==> t.officer), cfg,
                     t.wire);
      }
    }
  }

  /**
   * With the kill switch tripped a cycle sends nothing, neither entries nor exits, approves nothing, and
   * queues no exit; entries may still be queued for a person.
   */
  lemma {:induction false} KilledCycleIsQuiet(d: Desk, r: Record, ps: seq<Proposal>, ts: seq<Turn>, w: World,
      cfg: GateConfig)
    requires |ps| == |ts| && forall t :: t in ts ==> t.wire.killed
    ensures var after := Executed(d, r, ps, ts, w, cfg);
      && Quiet(d, after.0) && after.1.approved == r.approved
      && ((forall p :: p in ps ==> p.action == Close) ==> after.0 == d && after.1.pending == r.pending)
    decreases |ps|
  {
    if ps == [] {
    } else {
      assert ts[0] in ts && ps[0] in ps;
      var step := Handle(d, ps[0], w, ts[0], cfg);
      KilledHandle(d, ps[0], w, ts[0], cfg);
      KilledCycleIsQuiet(step.0, File(r, ps[0].symbol, step.1), ps[1..], ts[1..], w, cfg);
    }
  }

  /** Nor does approving an idea send anything then, or for an entry when the switch trips just after its evaluation. */
  lemma KilledApprovalIsQuiet(d: Desk, index: nat, w: World, t: Turn, cfg: GateConfig)
    requires t.wire.killed || (t.wire.killedLate && index < |d.awaiting| && d.awaiting[index].PendingEntry?)
    ensures Quiet(d, Approving(d, index, w, t, cfg))
  {
    if index < |d.awaiting| && d.awaiting[index].PendingEntry? && d.awaiting[index].proposal.symbol in w.features {
      var p := d.awaiting[index].proposal;
      var f := w.features[p.symbol];
      var rest := d.(awaiting := d.awaiting[..index] + d.awaiting[index + 1..]);
      var sized := SizeProposal(p, f, w.account.funds, t.quote, cfg.limits, w.offsetPct, RoundToTick);
      if sized.Some? {
        KilledSubmit(rest, p, sized.value, ContextFor(rest, w, t, f, 0.0, true), cfg, t.wire);
      }
    }
  }
}
