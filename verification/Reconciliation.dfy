/** Reconciliation: rebuilding the local view from the broker's, and repairing unprotected positions. */
module Reconciliation {
  import opened Common
  import opened Domain
  import opened Refs
  import opened OrderModel

  // ------------------------------------------------------------------ absorbing the broker's view

  /** Working orders the broker knows nothing about. */
  function OrphanRefs(s: Sys, known: set<string>): set<string> {
    set r | r in s.mem.orders && s.mem.orders[r].state.IsWorking() && r !in known
  }

  function CancelledRow(s: Sys, ref: string): Row
    requires ref in s.mem.orders
  {
    ToRow(s.mem.orders[ref].(state := Cancelled), KeptPerm(s.disk, ref, Lookup(s.mem.perms, ref)))
  }

  /** Marks the orders in `gone` cancelled, in memory and on disk. */
  function CancelLocally(s: Sys, gone: set<string>): Sys
    requires gone <= s.mem.orders.Keys
  {
    Sys(s.mem.(orders := map r | r in s.mem.orders ::
                 if r in gone then s.mem.orders[r].(state := Cancelled) else s.mem.orders[r]),
        s.disk.(rows := map r | r in s.disk.rows.Keys + gone ::
                 if r in gone then CancelledRow(s, r) else s.disk.rows[r]))
  }

  function DropOrphans(s: Sys, known: set<string>): Sys {
    CancelLocally(s, OrphanRefs(s, known))
  }

  /** The completed orders that are absorbed: ours, and already known locally. */
  function AbsorbCompleted(s: Sys, completed: seq<Status>): Sys {
    if completed == [] then s
    else
      var n := |completed| - 1;
      var t := AbsorbCompleted(s, completed[..n]);
      if IsOurs(completed[n].ref) && completed[n].ref in t.mem.orders then ApplyStatus(t, completed[n]) else t
  }

  /** The open orders that are absorbed: every one of ours, known locally or not. */
  function AbsorbOpen(s: Sys, open: seq<Status>): Sys {
    if open == [] then s
    else
      var n := |open| - 1;
      var t := AbsorbOpen(s, open[..n]);
      if IsOurs(open[n].ref) then ApplyStatus(t, open[n]) else t
  }

  function KnownRefs(open: seq<Status>, completed: seq<Status>): set<string> {
    set st | st in open + completed && st.ref != "" :: st.ref
  }

  function Absorb(s: Sys, open: seq<Status>, completed: seq<Status>): Sys {
    DropOrphans(AbsorbCompleted(AbsorbOpen(s, open), completed), KnownRefs(open, completed))
  }

  // ------------------------------------------------------------------ the broker

  /** The broker's order book: the latest status of every order, and what it has been asked to do. */
  datatype Book = Book(entries: seq<Status>, nextId: int, placed: seq<Spec>, cancelRequests: nat)

  predicate IsLive(name: string) {
    name == "Submitted" || name == "PreSubmitted" || name == "PendingSubmit"
  }

  predicate IsDone(name: string) {
    name == "Filled" || name == "Cancelled"
  }

  function OpenOrders(entries: seq<Status>): seq<Status> {
    Filter((e: Status) => IsLive(e.name), entries)
  }

  function CompletedOrders(entries: seq<Status>): seq<Status> {
    Filter((e: Status) => IsDone(e.name), entries)
  }

  /** One status per ref and per id, ids positive and below the next one. */
  ghost predicate ValidBook(b: Book) {
    && b.nextId > 0
    && (forall i :: 0 <= i < |b.entries| ==> 0 < b.entries[i].orderId < b.nextId)
    && (forall i, j :: 0 <= i < j < |b.entries| ==> b.entries[i].ref != b.entries[j].ref)
    && (forall i, j :: 0 <= i < j < |b.entries| ==> b.entries[i].orderId != b.entries[j].orderId)
  }

  /** Python's `statuses[ref] = st` on an insertion-ordered dict. */
  function Upsert(entries: seq<Status>, st: Status): seq<Status> {
    if entries == [] then [st]
    else if entries[0].ref == st.ref then [st] + entries[1..]
    else [entries[0]] + Upsert(entries[1..], st)
  }

  /** How a placement is answered: a status name, and how much of the order is filled already. */
  datatype Answer = Answer(name: string, filled: real, avgFill: Option<real>)

  function NewStatus(spec: Spec, id: int, a: Answer): Status {
    Status(spec.ref, id, Some(id * 10), a.name, a.filled, spec.quantity - a.filled, a.avgFill, spec.symbol, spec.action)
  }

  function PlaceSingle(b: Book, spec: Spec, a: Answer): Book {
    Book(Upsert(b.entries, NewStatus(spec, b.nextId, a)), b.nextId + 1, b.placed + [spec], b.cancelRequests)
  }

  function CancelledStatus(e: Status): Status {
    e.(name := "Cancelled", remaining := 0.0)
  }

  /** Every order whose id is asked for becomes cancelled. */
  function CancelIn(entries: seq<Status>, ids: set<int>): (after: seq<Status>)
    ensures |after| == |entries|
    ensures forall i :: 0 <= i < |entries| ==>
              after[i] == if entries[i].orderId in ids then CancelledStatus(entries[i]) else entries[i]
  {
    seq(|entries|, i requires 0 <= i < |entries| =>
      if entries[i].orderId in ids then CancelledStatus(entries[i]) else entries[i])
  }

  // ------------------------------------------------------------------ one pass

  /** An open position, as the account snapshot lists it. */
  datatype Held = Held(symbol: string, position: Position)

  /** The wall clock and the monotonic clock read while repairing one position. */
  datatype Stamp = Stamp(day: string, second: string, now: real)

  /**
   * What one pass meets: the time, the open positions, the executions and quotes, the clock readings,
   * and for each symbol how a stop placement is answered (none: the call raises).
   */
  datatype Env = Env(
    now: real, account: seq<Held>, executions: seq<Execution>,
    quotes: map<string, Quote>, stamps: map<string, Stamp>, answers: map<string, Answer>)

  function StampOf(env: Env, symbol: string): Stamp {
    if symbol in env.stamps then env.stamps[symbol] else Stamp("", "", env.now)
  }

  /** The price a protective stop is measured from: a usable quote, else the mark, else the cost. */
  function ReferencePrice(quote: Option<Quote>, position: Position): Option<real> {
    if quote.Some? && quote.value.Usable() then quote.value.Mid()
    else if position.marketPrice.Some? && position.marketPrice.value != 0.0 then position.marketPrice
    else if position.avgCost != 0.0 then Some(position.avgCost)
    else None
  }

  function StopRef(env: Env, symbol: string): string {
    MakeRef(StampOf(env, symbol).day, "protect-" + StampOf(env, symbol).second, symbol, "STOP")
  }

  function StopOrder(env: Env, h: Held, reference: real): ManagedOrder {
    var stop := RoundCents(reference * if h.position.IsLong() then 0.97 else 1.03);
    ManagedOrder(StopRef(env, h.symbol), h.symbol, if h.position.IsLong() then "SELL" else "BUY",
                 Abs(h.position.quantity), None, Some(stop), None, Pending, None, Some("recovered"), 0.0, None, None,
                 Some("protective stop added during reconciliation"))
  }

  function StopSpec(mo: ManagedOrder): Spec {
    Spec(mo.symbol, mo.action, mo.quantity, "STP", None, mo.stopPrice, mo.ref, None)
  }

  datatype Emitted = Emitted(s: Sys, b: Book, placed: bool)

  /** `_emit_protective_stop`: write the stop ahead, send it, absorb the answer. */
  function Emit(s: Sys, b: Book, env: Env, h: Held): Emitted {
    var reference := ReferencePrice(Lookup(env.quotes, h.symbol), h.position);
    if reference.None? || reference.value <= 0.0 then Emitted(s, b, false)
    else
      var mo := StopOrder(env, h, reference.value);
      var written := Store(s, mo, None);
      if h.symbol !in env.answers then Emitted(written, b, false)
      else
        var a := env.answers[h.symbol];
        Emitted(ApplyStatus(written, NewStatus(StopSpec(mo), b.nextId, a)), PlaceSingle(b, StopSpec(mo), a), true)
  }

  /** Symbols with a working order that carries a stop price. */
  function ProtectedSymbols(s: Sys): set<string> {
    set r | r in s.mem.orders && s.mem.orders[r].state.IsWorking() && s.mem.orders[r].stopPrice.Some?
      :: s.mem.orders[r].symbol
  }

  datatype Repair = Repair(s: Sys, b: Book, unprotected: seq<string>, placed: seq<string>, unresolved: seq<string>)

  /** The state after the stop of one more position was placed, or not: a failure blocks the symbol. */
  function AfterEmit(prev: Repair, env: Env, h: Held, e: Emitted): Repair {
    if e.placed then Repair(e.s, e.b, prev.unprotected + [h.symbol], prev.placed + [h.symbol], prev.unresolved)
    else Repair(Block(e.s, h.symbol, StampOf(env, h.symbol).now), e.b,
                prev.unprotected + [h.symbol], prev.placed, prev.unresolved + [h.symbol])
  }

  /** One position without a stop: place one, or block its symbol. */
  function RepairedOne(prev: Repair, env: Env, h: Held): Repair {
    AfterEmit(prev, env, h, Emit(prev.s, prev.b, env, h))
  }

  /** Step 4: a stop for every listed position that is not in `covered`. */
  function RepairAll(s: Sys, b: Book, env: Env, covered: set<string>, account: seq<Held>): Repair {
    if account == [] then Repair(s, b, [], [], [])
    else
      var n := |account| - 1;
      var prev := RepairAll(s, b, env, covered, account[..n]);
      if account[n].symbol in covered then prev
      else RepairedOne(prev, env, account[n])
  }

  /** One position more. */
  lemma RepairNext(s: Sys, b: Book, env: Env, covered: set<string>, i: nat)
    requires i < |env.account|
    ensures var prev, h := RepairAll(s, b, env, covered, env.account[..i]), env.account[i];
      RepairAll(s, b, env, covered, env.account[..i + 1])
      == if h.symbol in covered then prev else RepairedOne(prev, env, h)
  {
    assert env.account[..i + 1][..i] == env.account[..i];
  }

  /** What holds at the start of step 4 and survives every single repair holds once the first `n` are done. */
  lemma {:induction false} RepairInduction(s: Sys, b: Book, env: Env, covered: set<string>, n: nat, P: Repair -> bool)
    requires n <= |env.account| && P(Repair(s, b, [], [], []))
    requires forall prev: Repair, h {:trigger RepairedOne(prev, env, h)} ::
               P(prev) && h in env.account[..n] && h.symbol !in covered ==> P(RepairedOne(prev, env, h))
    ensures P(RepairAll(s, b, env, covered, env.account[..n]))
  {
    if n == 0 {
    } else {
      assert env.account[..n] == env.account[..n - 1] + [env.account[n - 1]];
      RepairInduction(s, b, env, covered, n - 1, P);
      RepairNext(s, b, env, covered, n - 1);
    }
  }

  function Symbols(account: seq<Held>): set<string> {
    set h | h in account :: h.symbol
  }

  /** Step 5: working child orders of symbols no longer held, with an id to cancel them by. */
  function StaleChildren(s: Sys, held: set<string>): set<string> {
    set r | r in s.mem.orders && s.mem.orders[r].state.IsWorking() && s.mem.orders[r].parentRef.Some?
            && s.mem.orders[r].symbol !in held && Truthy(s.mem.orders[r].brokerId)
  }

  function BrokerIds(s: Sys, refs: set<string>): set<int> {
    set r | r in refs && r in s.mem.orders && s.mem.orders[r].brokerId.Some? :: s.mem.orders[r].brokerId.value
  }

  /** Refs of ours that the broker reports open and the process had not heard of. */
  function AdoptedRefs(s: Sys, open: seq<Status>): seq<string> {
    if open == [] then []
    else
      var n := |open| - 1;
      var prev := AdoptedRefs(s, open[..n]);
      if IsOurs(open[n].ref) && open[n].ref !in AbsorbOpen(s, open[..n]).mem.orders then prev + [open[n].ref] else prev
  }

  datatype Report = Report(
    adopted: seq<string>, orphanedLocal: set<string>, unprotected: seq<string>,
    placed: seq<string>, unresolved: seq<string>, blocked: set<string>)

  datatype Outcome = Outcome(s: Sys, b: Book, report: Report)

  /** Local state once every open and completed order has been applied, before orphans are dropped. */
  function Applied(s: Sys, b: Book, now: real): Sys {
    AbsorbCompleted(AbsorbOpen(Unblock(s, now), OpenOrders(b.entries)), CompletedOrders(b.entries))
  }

  function Known(b: Book): set<string> {
    KnownRefs(OpenOrders(b.entries), CompletedOrders(b.entries))
  }

  /** Steps 1 to 3. */
  function Rebuilt(s: Sys, b: Book, env: Env): Sys {
    OnExecutions(DropOrphans(Applied(s, b, env.now), Known(b)), env.executions)
  }

  /** Steps 1 to 4. */
  function Repaired(s: Sys, b: Book, env: Env): Repair {
    var t := Rebuilt(s, b, env);
    RepairAll(t, b, env, ProtectedSymbols(t), env.account)
  }

  /** A whole pass of `reconcile`. */
  function Reconcile(s: Sys, b: Book, env: Env): Outcome {
    var fix := Repaired(s, b, env);
    var stale := StaleChildren(fix.s, Symbols(env.account));
    Outcome(fix.s,
            fix.b.(entries := CancelIn(fix.b.entries, BrokerIds(fix.s, stale)),
                   cancelRequests := fix.b.cancelRequests + |stale|),
            Report(AdoptedRefs(Unblock(s, env.now), OpenOrders(b.entries)),
                   OrphanRefs(Applied(s, b, env.now), Known(b)),
                   fix.unprotected, fix.placed, fix.unresolved, fix.s.mem.blocked.Keys))
  }

  // ------------------------------------------------------------------ the mirror survives a pass

  lemma {:induction false} AbsorbOpenMirror(s: Sys, open: seq<Status>)
    requires Mirror(s)
    ensures Mirror(AbsorbOpen(s, open))
    ensures s.mem.orders.Keys <= AbsorbOpen(s, open).mem.orders.Keys
    ensures AbsorbOpen(s, open).disk.fills == s.disk.fills
    ensures AbsorbOpen(s, open).mem.(orders := s.mem.orders, perms := s.mem.perms) == s.mem
  {
    if open == [] {
    } else {
      var n := |open| - 1;
      AbsorbOpenMirror(s, open[..n]);
      ApplyStatusMirror(AbsorbOpen(s, open[..n]), open[n]);
    }
  }

  lemma {:induction false} AbsorbCompletedMirror(s: Sys, completed: seq<Status>)
    requires Mirror(s)
    ensures Mirror(AbsorbCompleted(s, completed))
    ensures AbsorbCompleted(s, completed).mem.orders.Keys == s.mem.orders.Keys
    ensures AbsorbCompleted(s, completed).disk.fills == s.disk.fills
    ensures AbsorbCompleted(s, completed).mem.(orders := s.mem.orders, perms := s.mem.perms) == s.mem
  {
    if completed == [] {
    } else {
      var n := |completed| - 1;
      AbsorbCompletedMirror(s, completed[..n]);
      ApplyStatusMirror(AbsorbCompleted(s, completed[..n]), completed[n]);
    }
  }

  lemma DropOrphansMirror(s: Sys, known: set<string>)
    requires Mirror(s)
    ensures Mirror(DropOrphans(s, known))
    ensures DropOrphans(s, known).mem.orders.Keys == s.mem.orders.Keys
  {
  }

  lemma AbsorbMirror(s: Sys, open: seq<Status>, completed: seq<Status>)
    requires Mirror(s)
    ensures Mirror(Absorb(s, open, completed))
    ensures s.mem.orders.Keys <= Absorb(s, open, completed).mem.orders.Keys
    ensures Absorb(s, open, completed).disk.fills == s.disk.fills
    ensures Absorb(s, open, completed).mem.(orders := s.mem.orders, perms := s.mem.perms) == s.mem
  {
    AbsorbOpenMirror(s, open);
    AbsorbCompletedMirror(AbsorbOpen(s, open), completed);
    DropOrphansMirror(AbsorbCompleted(AbsorbOpen(s, open), completed), KnownRefs(open, completed));
  }

}
