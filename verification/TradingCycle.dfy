/** The decision cycle, its record and the shared state as objects, proved equal to the session model. */
module Trading {
  import opened Common
  import opened Domain
  import opened Sizing
  import opened RiskGate
  import opened Session

  class CycleRecord {
    var approved: nat
    var rejected: nat
    var pending: nat
    var rejections: seq<(string, Refusal)>

    constructor ()
      ensures View() == Record(0, 0, 0, [])
    {
      approved, rejected, pending, rejections := 0, 0, 0, [];
    }

    ghost function View(): Record
      reads this
    {
      Record(approved, rejected, pending, rejections)
    }

    method Refuse(symbol: string, refusal: Refusal)
      modifies this
      ensures View() == File(old(View()), symbol, Refused(refusal))
    {
      if CountsAsRejected(refusal) { rejected := rejected + 1; }
      rejections := rejections + [(symbol, refusal)];
    }
  }

  class AppState {
    var startingEquity: real
    var tradesToday: int
    var entriesThisCycle: int
    var lastEntry: map<string, real>
    var lastClose: map<string, real>
    var awaiting: seq<Pending>
    /** Everything that happened in the session, for the claims about it. */
    ghost var log: seq<Event>

    constructor (equity: real)
      ensures View([], false) == FreshDesk(equity)
    {
      startingEquity, tradesToday, entriesThisCycle := equity, 0, 0;
      lastEntry, lastClose, awaiting, log := map[], map[], [], [];
    }

    ghost function View(orderTimes: seq<real>, lossTripped: bool): Desk
      reads this
    {
      Desk(startingEquity, tradesToday, entriesThisCycle, lastEntry, lastClose, orderTimes, lossTripped, awaiting, log)
    }

    method NoteEntry(p: Proposal, ghost since: real, at: real)
      modifies this
      ensures forall times, tripped ::
                View(times, tripped) == Session.NoteEntry(old(View(times, tripped)), p, since, at)
    {
      lastEntry := lastEntry[p.symbol := at];
      tradesToday := tradesToday + 1;
      entriesThisCycle := entriesThisCycle + 1;
      log := log + [Entered(p.symbol, p.conviction, since, at)];
    }

    method NoteClose(symbol: string, at: real)
      modifies this
      ensures forall times, tripped :: View(times, tripped) == Session.NoteClose(old(View(times, tripped)), symbol, at)
    {
      lastClose := lastClose[symbol := at];
      log := log + [Exited(symbol, at)];
    }

    method ResetForNewSession(equity: real)
      modifies this
      ensures View([], false) == FreshDesk(equity)
    {
      startingEquity := equity;
      tradesToday := 0;
      entriesThisCycle := 0;
      lastEntry := map[];
      lastClose := map[];
      awaiting := [];
      log := [];
    }
  }

  class TradingCycle {
    const cfg: GateConfig
    const state: AppState
    const risk: RiskEngine

    ghost predicate Valid(now: real)
      reads this, risk, risk.breaker
    {
      risk.cfg == cfg && risk.Valid(now) && risk.breaker.inFlight == 0 && risk.breaker.overlap >= 1
    }

    ghost function View(): Desk
      reads this, state, risk, risk.breaker
    {
      state.View(risk.breaker.orderTimes, risk.dailyLossTripped)
    }

    constructor (cfg: GateConfig, equity: real)
      requires cfg.maxOrdersPerMinute >= 1
      ensures this.cfg == cfg && View() == FreshDesk(equity) && fresh(state) && fresh(risk) && fresh(risk.breaker)
      ensures forall now :: Valid(now)
    {
      this.cfg := cfg;
      state := new AppState(equity);
      risk := new RiskEngine(cfg, 1);
    }

    /** Submission and, once approved, the note of it. */
    method SubmitAndNote(p: Proposal, o: SizedOrder, ctx: Context, wire: Wire, ghost now: real)
      returns (verdict: Option<Reason>)
      requires Valid(now) && now <= wire.checkedAt <= wire.doneAt
      modifies state, risk, risk.breaker
      ensures Valid(wire.doneAt)
      ensures (View(), verdict) == Submitting(old(View()), p, o, ctx, cfg, wire)
    {
      risk.breaker.Later(now, wire.checkedAt);
      verdict := risk.Submit(o, ctx, wire);
      if verdict == None {
        state.NoteEntry(p, wire.checkedAt, wire.doneAt);
      }
    }

    method HandleClose(symbol: string, w: World, t: Turn, record: CycleRecord)
      modifies state, record
      ensures var after := Session.HandleClose(old(View()), symbol, w, t, cfg);
        View() == after.0 && record.View() == File(old(record.View()), symbol, after.1)
    {
      var open := w.account.Open();
      if symbol !in open {
        record.Refuse(symbol, NoPosition);
        return;
      }
      var held := open[symbol];
      var verdict := CloseVerdict(symbol, t.quote, w.phase, t.working, cfg, t.wire.killed);
      if verdict.Some? {
        record.Refuse(symbol, Gate(verdict.value));
        return;
      }
      if t.manual {
        state.awaiting := state.awaiting
          + [PendingClose(symbol, if held.IsLong() then Sell else Buy, held.quantity, held.IsLong())];
        record.pending := record.pending + 1;
        return;
      }
      if t.wire.returned {
        state.NoteClose(symbol, t.wire.doneAt);
        record.approved := record.approved + 1;
      } else {
        record.Refuse(symbol, CloseFailed);
      }
    }

    method Send(p: Proposal, o: SizedOrder, f: Features, w: World, t: Turn, record: CycleRecord, ghost now: real)
      requires Valid(now) && Timely(t, now)
      modifies state, risk, risk.breaker, record
      ensures Valid(t.wire.doneAt)
      ensures var after := Sending(old(View()), p, o, f, w, t, cfg);
        View() == after.0 && record.View() == File(old(record.View()), p.symbol, after.1)
    {
      var officerApproved := true;
      if cfg.requireOfficer {
        officerApproved := t.officer;
      }
      var ctx := Context(w.account, t.accountAge, t.quote, w.phase, w.minutesToClose, w.isLive, state.startingEquity,
                         state.entriesThisCycle, state.tradesToday, t.working, state.lastEntry, state.lastClose,
                         t.decisionAge, officerApproved, f.avgVolume);
      if t.manual {
        risk.breaker.Later(now, t.wire.doneAt);
        state.awaiting := state.awaiting + [PendingEntry(p, o)];
        record.pending := record.pending + 1;
        return;
      }
      var verdict := SubmitAndNote(p, o, ctx, t.wire, now);
      if verdict == None {
        record.approved := record.approved + 1;
      } else {
        record.Refuse(p.symbol, Gate(verdict.value));
      }
    }

    method HandleEntry(p: Proposal, w: World, t: Turn, record: CycleRecord, ghost now: real)
      requires Valid(now) && Timely(t, now)
      modifies state, risk, risk.breaker, record
      ensures Valid(t.wire.doneAt)
      ensures var after := Session.HandleEntry(old(View()), p, w, t, cfg);
        View() == after.0 && record.View() == File(old(record.View()), p.symbol, after.1)
    {
      risk.breaker.Later(now, t.wire.doneAt);
      if p.symbol !in w.features {
        record.Refuse(p.symbol, NoFeatures);
        return;
      }
      if p.conviction < MIN_CONVICTION {
        record.Refuse(p.symbol, LowConviction);
        return;
      }
      var f := w.features[p.symbol];
      var sized := SizeProposal(p, f, w.account.funds, t.quote, cfg.limits, w.offsetPct, RoundToTick);
      if sized.None? {
        record.Refuse(p.symbol, Unsizeable);
        return;
      }
      Send(p, sized.value, f, w, t, record, now);
    }

    /** `_execute`: the proposals in order, each against the state the ones before it left. */
    method Execute(ps: seq<Proposal>, ts: seq<Turn>, w: World, record: CycleRecord, ghost now: real)
      requires |ps| == |ts| && Valid(now) && AllTimely(ts, now)
      modifies state, risk, risk.breaker, record
      ensures Valid(EndOf(ts, now))
      ensures (View(), record.View()) == Executed(old(View()), old(record.View()), ps, ts, w, cfg)
    {
      ghost var clock := now;
      for i := 0 to |ps|
        invariant Valid(clock) && AllTimely(ts[i..], clock) && EndOf(ts[i..], clock) == EndOf(ts, now)
        invariant Executed(View(), record.View(), ps[i..], ts[i..], w, cfg)
               == Executed(old(View()), old(record.View()), ps, ts, w, cfg)
      {
        label before:
        if ps[i].action == Close {
          HandleClose(ps[i].symbol, w, ts[i], record);
          risk.breaker.Later(clock, ts[i].wire.doneAt);
        } else {
          HandleEntry(ps[i], w, ts[i], record, clock);
        }
        clock := ts[i].wire.doneAt;
        assert ps[i..][1..] == ps[i + 1..] && ts[i..][1..] == ts[i + 1..];
      }
    }

    /** One cycle's execution step, its entries counted afresh. */
    method RunCycle(ps: seq<Proposal>, ts: seq<Turn>, w: World, ghost now: real) returns (record: CycleRecord)
      requires |ps| == |ts| && Valid(now) && AllTimely(ts, now)
      modifies state, risk, risk.breaker
      ensures fresh(record) && Valid(EndOf(ts, now))
      ensures (View(), record.View()) == Executed(BeginCycle(old(View())), Record(0, 0, 0, []), ps, ts, w, cfg)
    {
      record := new CycleRecord();
      state.entriesThisCycle := 0;
      state.log := state.log + [CycleBegan];
      Execute(ps, ts, w, record, now);
    }

    /** `approve_proposal`: the idea leaves the list and is judged on today's numbers. */
    method ApproveProposal(index: nat, w: World, t: Turn, ghost now: real)
      requires Valid(now) && Timely(t, now)
      modifies state, risk, risk.breaker
      ensures Valid(t.wire.doneAt)
      ensures View() == Approving(old(View()), index, w, t, cfg)
    {
      risk.breaker.Later(now, t.wire.doneAt);
      if index >= |state.awaiting| { return; }
      var idea := state.awaiting[index];
      state.awaiting := state.awaiting[..index] + state.awaiting[index + 1..];
      match idea
      case PendingClose(symbol, _, _, _) =>
        var verdict := CloseVerdict(symbol, t.quote, w.phase, t.working, cfg, t.wire.killed);
        if verdict == None && t.wire.returned {
          state.NoteClose(symbol, t.wire.doneAt);
        }
      case PendingEntry(p, _) =>
        if p.symbol in w.features {
          var f := w.features[p.symbol];
          var sized := SizeProposal(p, f, w.account.funds, t.quote, cfg.limits, w.offsetPct, RoundToTick);
          if sized.Some? {
            var ctx := Context(w.account, t.accountAge, t.quote, w.phase, w.minutesToClose, w.isLive,
                               state.startingEquity, state.entriesThisCycle, state.tradesToday, t.working,
                               state.lastEntry, state.lastClose, 0.0, true, f.avgVolume);
            var _ := SubmitAndNote(p, sized.value, ctx, t.wire, now);
          }
        }
    }

    method ResetForNewSession(equity: real, ghost now: real)
      requires Valid(now)
      modifies state, risk, risk.breaker
      ensures Valid(now) && View() == FreshDesk(equity)
    {
      state.ResetForNewSession(equity);
      risk.ResetForNewSession(now);
    }
  }
}
