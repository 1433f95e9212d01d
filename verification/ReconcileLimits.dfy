/** What a reconciliation pass does not promise, each with an input and its exact condition. */
module ReconcileLimits {
  import opened Common
  import opened Domain
  import opened Refs
  import opened OrderModel
  import opened Reconciliation
  import opened ReconcileProofs
  import opened Terms

  // ------------------------------------------------------------------ what repairing one position writes

  /** What a stop is measured from: the market if it can be priced, else a mark that is not zero, else the cost. */
  function StopBase(env: Env, h: Held): real {
    if h.symbol in env.quotes && Priceable(env.quotes[h.symbol]) then MarketPrice(env.quotes[h.symbol]).value
    else if h.position.marketPrice.Some? && h.position.marketPrice.value != 0.0 then h.position.marketPrice.value
    else h.position.avgCost
  }

  predicate HasPrice(env: Env, h: Held) { StopBase(env, h) > 0.0 }

  /** Three percent on the losing side of it. */
  function StopTarget(env: Env, h: Held): real {
    StopBase(env, h) * if h.position.quantity > 0.0 then 0.97 else 1.03
  }

  /** The stop is sent and the call returns. */
  predicate Places(env: Env, h: Held) { HasPrice(env, h) && h.symbol in env.answers }

  /** An answer that leaves no working order behind. */
  predicate Ends(a: Answer) {
    a.name == "Filled" || a.name == "Cancelled" || a.name == "ApiCancelled" || (a.name == "Inactive" && a.filled <= 0.0)
  }

  function ExitSide(p: Position): string { if p.IsLong() then "SELL" else "BUY" }

  /** A stop that closes the whole position, three percent away, and counts as a child; pending until answered. */
  ghost predicate IsStopFor(mo: ManagedOrder, env: Env, h: Held) {
    && mo.symbol == h.symbol && mo.action == ExitSide(h.position) && mo.quantity == Abs(h.position.quantity)
    && mo.limitPrice.None? && mo.stopPrice.Some? && ToTheCent(mo.stopPrice.value, StopTarget(env, h))
    && mo.parentRef == Some("recovered") && mo.rationale == Some("protective stop added during reconciliation")
    && mo.cycle.None? && mo.targetPrice.None? && (h.symbol !in env.answers ==> mo.state == Pending && mo.filled == 0.0)
  }

  lemma StopOrderIs(env: Env, h: Held)
    ensures var price := ReferencePrice(Lookup(env.quotes, h.symbol), h.position);
      && (price.Some? && price.value > 0.0 <==> HasPrice(env, h))
      && (HasPrice(env, h) ==> IsStopFor(StopOrder(env, h, price.value), env, h))
  {
    if h.symbol in env.quotes { QuoteTerms(env.quotes[h.symbol]); }
    CentError(StopTarget(env, h));
  }

  lemma AnsweredState(mo: ManagedOrder, st: Status, a: Answer)
    requires mo.state == Pending && st.name == a.name && st.filled == a.filled
    ensures Updated(mo, st).state.IsWorking() <==> !Ends(a)
  {
  }

  /** Repairing one position writes its own stop, or nothing: working unless the answer ends it. */
  lemma EmitExactly(s: Sys, b: Book, env: Env, h: Held)
    requires Keyed(s)
    ensures Keyed(Emit(s, b, env, h).s) && (Emit(s, b, env, h).placed <==> Places(env, h))
    ensures !HasPrice(env, h) ==> Emit(s, b, env, h).s == s
    ensures HasPrice(env, h) ==>
      var t, r := Emit(s, b, env, h).s.mem.orders, StopRef(env, h.symbol);
      && r in t && t == s.mem.orders[r := t[r]] && IsStopFor(t[r], env, h)
      && (t[r].state.IsWorking() <==> !Places(env, h) || !Ends(env.answers[h.symbol]))
  {
    StopOrderIs(env, h);
    if HasPrice(env, h) {
      var mo := StopOrder(env, h, ReferencePrice(Lookup(env.quotes, h.symbol), h.position).value);
      MakeRefOurs(StampOf(env, h.symbol).day, "protect-" + StampOf(env, h.symbol).second, h.symbol, "STOP");
      if Places(env, h) {
        var a := env.answers[h.symbol];
        var st := NewStatus(StopSpec(mo), b.nextId, a);
        ApplyStatusOne(Store(s, mo, None), st);
        AnsweredState(mo, st, a);
      }
    }
  }

  // ------------------------------------------------------------------ what repairing all of them writes

  /** Order `r`, as an order of symbol `y`, is the same in both states, or in neither. */
  ghost predicate SameOf(s: Sys, t: Sys, y: string, r: string) {
    && (r in t.mem.orders && t.mem.orders[r].symbol == y <==> r in s.mem.orders && s.mem.orders[r].symbol == y)
    && (r in s.mem.orders && s.mem.orders[r].symbol == y ==> r in t.mem.orders && t.mem.orders[r] == s.mem.orders[r])
  }

  lemma EmitSame(s: Sys, b: Book, env: Env, h: Held, y: string, r: string)
    requires Keyed(s) && NoClash(s, env) && h in env.account && (r == StopRef(env, y) ==> y != h.symbol)
    ensures SameOf(s, Emit(s, b, env, h).s, y, r)
  {
    EmitExactly(s, b, env, h);
    assert h.symbol in Symbols(env.account);
  }

  lemma EmitClash(s: Sys, b: Book, env: Env, h: Held)
    requires Keyed(s) && NoClash(s, env) && h in env.account
    ensures NoClash(Emit(s, b, env, h).s, env)
  {
    EmitExactly(s, b, env, h);
    assert h.symbol in Symbols(env.account);
  }

  lemma StepClash(prev: Repair, env: Env, h: Held)
    requires Keyed(prev.s) && NoClash(prev.s, env) && h in env.account
    ensures Keyed(RepairedOne(prev, env, h).s) && NoClash(RepairedOne(prev, env, h).s, env)
  {
    EmitExactly(prev.s, prev.b, env, h);
    EmitClash(prev.s, prev.b, env, h);
  }

  lemma StepSame(s: Sys, prev: Repair, env: Env, h: Held, y: string, r: string)
    requires SameOf(s, prev.s, y, r) && Keyed(prev.s) && NoClash(prev.s, env) && h in env.account
    requires r == StopRef(env, y) ==> y != h.symbol
    ensures SameOf(s, RepairedOne(prev, env, h).s, y, r)
  {
    EmitSame(prev.s, prev.b, env, h, y, r);
  }

  lemma RepairClash(s: Sys, b: Book, env: Env, covered: set<string>, n: nat)
    requires Keyed(s) && NoClash(s, env) && n <= |env.account|
    ensures Keyed(RepairAll(s, b, env, covered, env.account[..n]).s)
    ensures NoClash(RepairAll(s, b, env, covered, env.account[..n]).s, env)
  {
    var P := (fix: Repair) => Keyed(fix.s) && NoClash(fix.s, env);
    forall prev: Repair, h | P(prev) && h in env.account ensures P(RepairedOne(prev, env, h)) {
      StepClash(prev, env, h);
    }
    RepairInduction(s, b, env, covered, n, P);
  }

  /** Repairing leaves alone every order of a symbol but the stop of its own it may write. */
  lemma RepairSame(s: Sys, b: Book, env: Env, covered: set<string>, n: nat, y: string, r: string)
    requires Keyed(s) && NoClash(s, env) && n <= |env.account|
    requires r == StopRef(env, y) ==> y in covered || y !in Symbols(env.account[..n])
    ensures SameOf(s, RepairAll(s, b, env, covered, env.account[..n]).s, y, r)
  {
    var P := (fix: Repair) => Keyed(fix.s) && NoClash(fix.s, env) && SameOf(s, fix.s, y, r);
    forall prev: Repair, h | P(prev) && h in env.account[..n] && h.symbol !in covered
      ensures P(RepairedOne(prev, env, h))
    {
      assert h.symbol in Symbols(env.account[..n]);
      StepClash(prev, env, h);
      StepSame(s, prev, env, h, y, r);
    }
    RepairInduction(s, b, env, covered, n, P);
  }

  /** What the lists say of a position that was not covered, and what its stop looks like. */
  ghost predicate StopOutcome(env: Env, h: Held, fix: Repair) {
    && (h.symbol in fix.placed <==> Places(env, h)) && (h.symbol in fix.unresolved <==> !Places(env, h))
    && (HasPrice(env, h) ==>
          var orders, r := fix.s.mem.orders, StopRef(env, h.symbol);
          && r in orders && IsStopFor(orders[r], env, h)
          && (orders[r].state.IsWorking() <==> !Places(env, h) || !Ends(env.answers[h.symbol])))
  }

  lemma {:induction false} RepairLists(s: Sys, b: Book, env: Env, covered: set<string>, n: nat)
    requires n <= |env.account|
    ensures var fix := RepairAll(s, b, env, covered, env.account[..n]);
      forall x :: x in fix.placed || x in fix.unresolved ==> x in Symbols(env.account[..n]) && x !in covered
  {
    if n == 0 {
    } else {
      RepairLists(s, b, env, covered, n - 1);
      assert env.account[..n][..n - 1] == env.account[..n - 1];
      assert env.account[..n] == env.account[..n - 1] + [env.account[n - 1]];
    }
  }

  lemma FirstOutcome(env: Env, h: Held, prev: Repair)
    requires Keyed(prev.s) && h.symbol !in prev.placed && h.symbol !in prev.unresolved
    ensures StopOutcome(env, h, RepairedOne(prev, env, h))
  {
    EmitExactly(prev.s, prev.b, env, h);
  }

  lemma LaterOutcome(env: Env, h: Held, prev: Repair, other: Held)
    requires Keyed(prev.s) && NoClash(prev.s, env) && StopOutcome(env, h, prev)
    requires h in env.account && other in env.account && other.symbol != h.symbol
    ensures StopOutcome(env, h, RepairedOne(prev, env, other))
  {
    EmitExactly(prev.s, prev.b, env, other);
    assert h.symbol in Symbols(env.account) && other.symbol in Symbols(env.account);
    assert StopRef(env, h.symbol) != StopRef(env, other.symbol);
  }

  lemma {:induction false} RepairStop(s: Sys, b: Book, env: Env, covered: set<string>, n: nat, k: nat)
    requires Keyed(s) && NoClash(s, env) && OncePerSymbol(env.account) && k < n <= |env.account|
    requires env.account[k].symbol !in covered
    ensures StopOutcome(env, env.account[k], RepairAll(s, b, env, covered, env.account[..n]))
  {
    var other := env.account[n - 1];
    var prev := RepairAll(s, b, env, covered, env.account[..n - 1]);
    RepairNext(s, b, env, covered, n - 1);
    RepairClash(s, b, env, covered, n - 1);
    if k == n - 1 {
      NotYetListed(s, b, env, covered, k);
      FirstOutcome(env, other, prev);
    } else {
      RepairStop(s, b, env, covered, n - 1, k);
      if other.symbol !in covered { LaterOutcome(env, env.account[k], prev, other); }
    }
  }

  lemma NotYetListed(s: Sys, b: Book, env: Env, covered: set<string>, k: nat)
    requires OncePerSymbol(env.account) && k < |env.account|
    ensures var prev := RepairAll(s, b, env, covered, env.account[..k]);
      env.account[k].symbol !in prev.placed && env.account[k].symbol !in prev.unresolved
  {
    RepairLists(s, b, env, covered, k);
    NewPosition(env.account, k);
  }

  /** After step 4, for one position: covered ones are untouched, the others have their outcome. */
  lemma PositionAfterRepair(s: Sys, b: Book, env: Env, h: Held)
    requires WellFormed(s, b, env) && h in env.account
    ensures Keyed(Rebuilt(s, b, env)) && NoClash(Repaired(s, b, env).s, env)
    ensures h.symbol !in ProtectedSymbols(Rebuilt(s, b, env)) ==> StopOutcome(env, h, Repaired(s, b, env))
    ensures forall r :: (r == StopRef(env, h.symbol) ==> h.symbol in ProtectedSymbols(Rebuilt(s, b, env))) ==>
              SameOf(Rebuilt(s, b, env), Repaired(s, b, env).s, h.symbol, r)
  {
    var t := Rebuilt(s, b, env);
    var covered, n := ProtectedSymbols(t), |env.account|;
    RebuiltSynced(s, b, env);
    RebuiltNames(s, b, env);
    NamesGiveNoClash(t, env);
    assert env.account[..n] == env.account;
    RepairClash(t, b, env, covered, n);
    if h.symbol !in covered {
      var k :| 0 <= k < n && env.account[k] == h;
      RepairStop(t, b, env, covered, n, k);
    }
    forall r | r == StopRef(env, h.symbol) ==> h.symbol in covered
      ensures SameOf(t, Repaired(s, b, env).s, h.symbol, r)
    {
      RepairSame(t, b, env, covered, n, h.symbol, r);
    }
  }

  // ------------------------------------------------------------------ an answer that ends the stop

  /**
   * Whatever the broker answers, a position leaves a pass with a working stop or reported unresolved
   * exactly when it was covered before step 4, or there was no price to place a stop at, or the call
   * raised, or the answer is not one that ends the stop.
   */
  lemma SettledExactlyWhen(s: Sys, b: Book, env: Env, h: Held)
    requires WellFormed(s, b, env) && h in env.account
    ensures var o := Reconcile(s, b, env);
      h.symbol in ProtectedSymbols(o.s) || h.symbol in o.report.unresolved
      <==> h.symbol in ProtectedSymbols(Rebuilt(s, b, env)) || !HasPrice(env, h) || h.symbol !in env.answers
           || !Ends(env.answers[h.symbol])
  {
    var t, fix := Rebuilt(s, b, env), Repaired(s, b, env);
    PositionAfterRepair(s, b, env, h);
    var stop := StopRef(env, h.symbol);
    if h.symbol in ProtectedSymbols(t) {
      var r :| r in t.mem.orders && t.mem.orders[r].state.IsWorking() && t.mem.orders[r].stopPrice.Some?
               && t.mem.orders[r].symbol == h.symbol;
      assert SameOf(t, fix.s, h.symbol, r);
    } else if Places(env, h) && Ends(env.answers[h.symbol]) {
      forall r | r in fix.s.mem.orders && fix.s.mem.orders[r].symbol == h.symbol && r != stop
        ensures !(fix.s.mem.orders[r].state.IsWorking() && fix.s.mem.orders[r].stopPrice.Some?)
      {
        assert SameOf(t, fix.s, h.symbol, r);
      }
    }
  }

  /**
   * The failing case at an input: with nothing known beforehand, a stop answered as "Inactive" is
   * reported as placed, and the position ends the pass with no working order, not blocked and not
   * unresolved.
   */
  lemma RejectedStopGoesUnnoticed(env: Env, h: Held)
    requires env.account == [h] && env.executions == [] && PlainEnv(env)
    requires env.quotes == map[] && h.position.marketPrice == Some(100.0)
    requires env.answers == map[h.symbol := Answer("Inactive", 0.0, None)]
    ensures var o := Reconcile(Sys(FRESH, Disk(map[], map[])), Book([], 1000, [], 0), env);
      && o.report.placed == [h.symbol] && o.report.unresolved == [] && h.symbol !in o.s.mem.blocked
      && h.symbol !in ProtectedSymbols(o.s)
  {
    var s, b := Sys(FRESH, Disk(map[], map[])), Book([], 1000, [], 0);
    NothingKnown(s, b, env);
    assert HasPrice(env, h);
    SettledExactlyWhen(s, b, env, h);
    OneRepair(Rebuilt(s, b, env), b, env, h, ProtectedSymbols(Rebuilt(s, b, env)));
  }

  lemma NothingKnown(s: Sys, b: Book, env: Env)
    requires s == Sys(FRESH, Disk(map[], map[])) && b == Book([], 1000, [], 0)
    ensures Keyed(Rebuilt(s, b, env)) && Rebuilt(s, b, env).mem.blocked == map[]
    ensures ProtectedSymbols(Rebuilt(s, b, env)) == {}
  {
    AppliedKeys(s, b, env.now);
    RebuiltSynced(s, b, env);
    assert Rebuilt(s, b, env).mem.orders == map[];
    UnansweredBlocks(s, b, env);
  }

  lemma OneRepair(t: Sys, b: Book, env: Env, h: Held, covered: set<string>)
    requires Keyed(t) && env.account == [h] && h.symbol !in covered && Places(env, h)
    ensures var fix := RepairAll(t, b, env, covered, env.account);
      fix.placed == [h.symbol] && fix.unresolved == [] && fix.s.mem.blocked == t.mem.blocked
  {
    assert env.account[..0] == [];
    assert RepairAll(t, b, env, covered, env.account[..0]) == Repair(t, b, [], [], []);
    EmitExactly(t, b, env, h);
    EmitFrame(t, b, env, h);
  }

  lemma UnansweredBlocks(s: Sys, b: Book, env: Env)
    requires s.mem.blocked == map[] && Mirror(s)
    ensures Rebuilt(s, b, env).mem.blocked == map[]
  {
    var u := Unblock(s, env.now);
    assert Mirror(u) && u.mem.blocked == map[];
    AbsorbOpenMirror(u, OpenOrders(b.entries));
    AbsorbCompletedMirror(AbsorbOpen(u, OpenOrders(b.entries)), CompletedOrders(b.entries));
    OnExecutionsKeeps(DropOrphans(Applied(s, b, env.now), Known(b)), env.executions);
  }

  // ------------------------------------------------------------------ an entry taken for a stop

  /** Order `r` works for the symbol with a stop price on the side that closes the position, live at the broker. */
  ghost predicate ClosedBy(s: Sys, b: Book, h: Held, r: string) {
    ProtectedBy(s, b, h.symbol, r) && s.mem.orders[r].action == ExitSide(h.position)
  }

  ghost predicate HasClosingStop(s: Sys, b: Book, h: Held) {
    exists r :: ClosedBy(s, b, h, r)
  }

  /** A working order of a held symbol whose stop was not left unplaced stays live through steps 4 and 5. */
  lemma HeldStaysLive(s: Sys, b: Book, env: Env, h: Held, r: string)
    requires Sane(s, b, env) && h in env.account && h.symbol !in Repaired(s, b, env).unresolved
    requires var t := Repaired(s, b, env).s;
             r in t.mem.orders && t.mem.orders[r].state.IsWorking() && t.mem.orders[r].symbol == h.symbol
    ensures HasEntry(Reconcile(s, b, env).b, r, true)
  {
    RepairedIsWell(s, b, env);
    var fix := Repaired(s, b, env);
    var stray, stale := Stray(env, fix.unresolved), StaleChildren(fix.s, Symbols(env.account));
    StaleNotStray(fix.s, env, fix.unresolved);
    assert h.symbol in Symbols(env.account);
    assert r !in stray;
    assert HasEntry(fix.b, r, true);
    var e :| e in fix.b.entries && e.ref == r && IsLive(e.name);
    CancelSpares(fix.s, fix.b, stray, stale, e);
    assert e in Reconcile(s, b, env).b.entries;
  }

  lemma LiveAnswersDoNotEnd(env: Env, x: string)
    requires LiveAnswers(env) && x in env.answers
    ensures !Ends(env.answers[x])
  {
  }

  /**
   * "Protected" is not closed off: a position that is not reported unresolved leaves a pass with a live,
   * working stop on the side that closes it exactly when nothing passed for protection before step 4, so
   * that a stop was placed, or such a stop was already there.
   */
  lemma ClosedOffExactlyWhen(s: Sys, b: Book, env: Env, h: Held)
    requires Sane(s, b, env) && h in env.account && h.symbol !in Reconcile(s, b, env).report.unresolved
    ensures HasClosingStop(Reconcile(s, b, env).s, Reconcile(s, b, env).b, h)
       <==> h.symbol !in ProtectedSymbols(Rebuilt(s, b, env)) || HasClosingStop(Rebuilt(s, b, env), b, h)
  {
    var t, fix, o := Rebuilt(s, b, env), Repaired(s, b, env), Reconcile(s, b, env);
    PositionAfterRepair(s, b, env, h);
    if h.symbol !in ProtectedSymbols(t) {
      var r := StopRef(env, h.symbol);
      LiveAnswersDoNotEnd(env, h.symbol);
      HeldStaysLive(s, b, env, h, r);
      assert ClosedBy(o.s, o.b, h, r);
    } else {
      RebuiltSynced(s, b, env);
      if r :| ClosedBy(t, b, h, r) {
        assert SameOf(t, fix.s, h.symbol, r);
        HeldStaysLive(s, b, env, h, r);
        assert ClosedBy(o.s, o.b, h, r);
      }
      if r :| ClosedBy(o.s, o.b, h, r) {
        assert SameOf(t, fix.s, h.symbol, r);
        assert ClosedBy(t, b, h, r);
      }
    }
  }

  /** The state after a bracket was written ahead, with only its entry known to the broker, half filled. */
  function DiedBeforeChildren(now: real, order: SizedOrder, cycle: string, days: Days): (Sys, Book) {
    (BeginBracket(Sys(FRESH, Disk(map[], map[])), now, order, cycle, days).0,
     Book([Status(EntryRef(days, cycle, order.symbol), 1000, None, "Submitted", order.quantity as real / 2.0,
                  order.quantity as real / 2.0, None, order.symbol, SideName(order.action))], 1001, [], 0))
  }

  lemma FreshBracket(now: real, order: SizedOrder, cycle: string, days: Days)
    requires order.action == Buy
    ensures var s := DiedBeforeChildren(now, order, cycle, days).0;
      var entry := EntryRef(days, cycle, order.symbol);
      && Keyed(s) && entry in s.mem.orders && s.mem.orders[entry].stopPrice.Some?
      && s.mem.orders[entry].action == "BUY" && s.mem.orders[entry].symbol == order.symbol
      && s.mem.orders[entry].parentRef == None
  {
    var s0 := Sys(FRESH, Disk(map[], map[]));
    var legs := Legs(order, cycle, days);
    assert Mirror(s0) && Unblock(s0, now) == s0;
    LegsOurs(order, cycle, days);
    WriteAheadMirror(s0, legs, 3);
    forall i, j | 0 <= i < j < 3 ensures legs[i].ref != legs[j].ref { LegRefsDiffer(order, cycle, days, i, j); }
    WriteAheadWrites(s0, legs, 3, 0);
  }

  /** What is left of a bracket whose exits never reached the broker: its entry, still working. */
  lemma OnlyEntryWorks(now: real, order: SizedOrder, cycle: string, days: Days, env: Env)
    requires order.action == Buy && order.quantity > 0
    ensures var (s, b) := DiedBeforeChildren(now, order, cycle, days);
      var t, entry := Rebuilt(s, b, env), EntryRef(days, cycle, order.symbol);
      && Keyed(t) && entry in t.mem.orders && t.mem.orders[entry].state.IsWorking()
      && t.mem.orders[entry].stopPrice.Some? && t.mem.orders[entry].action == "BUY"
      && t.mem.orders[entry].symbol == order.symbol && t.mem.orders[entry].parentRef == None
      && forall r :: r in t.mem.orders && t.mem.orders[r].state.IsWorking() ==> r == entry
  {
    var (s, b) := DiedBeforeChildren(now, order, cycle, days);
    var entry := EntryRef(days, cycle, order.symbol);
    FreshBracket(now, order, cycle, days);
    assert ValidBook(b);
    assert b.entries[0] in b.entries && b.entries[0].ref == entry && IsLive(b.entries[0].name);
    RebuiltSynced(s, b, env);
    RebuiltKeepsFields(s, b, env, entry);
    forall r | r in Rebuilt(s, b, env).mem.orders && Rebuilt(s, b, env).mem.orders[r].state.IsWorking()
      ensures r == entry
    {
      assert HasEntry(b, r, true);
    }
  }

  /**
   * The failing case at an input: the process died after the entry of a bracket went out and before its
   * exits did, and half of the entry filled. The pass reports the long position as protected, places
   * nothing, and every order left working is the buying entry itself.
   */
  lemma EntryPassesForProtection(now: real, order: SizedOrder, cycle: string, days: Days, env: Env, h: Held)
    requires order.action == Buy && order.quantity > 0 && env.account == [h]
    requires h.symbol == order.symbol && h.position.IsLong()
    ensures var (s, b) := DiedBeforeChildren(now, order, cycle, days);
      var o := Reconcile(s, b, env);
      && o.report.unprotected == [] && o.report.placed == [] && o.report.unresolved == []
      && !HasClosingStop(o.s, o.b, h)
      && (forall r :: r in o.s.mem.orders && o.s.mem.orders[r].state.IsWorking() ==> o.s.mem.orders[r].action == "BUY")
  {
    var (s, b) := DiedBeforeChildren(now, order, cycle, days);
    var t := Rebuilt(s, b, env);
    OnlyEntryWorks(now, order, cycle, days, env);
    var entry := EntryRef(days, cycle, order.symbol);
    assert order.symbol in ProtectedSymbols(t);
    NothingToRepair(t, b, env, ProtectedSymbols(t), env.account);
  }

  // ------------------------------------------------------------------ exits of an entry that has not filled

  /** Whether a live entry of ours is still live once a pass is over. */
  lemma LiveAfterPass(s: Sys, b: Book, env: Env, r: string)
    requires Sane(s, b, env) && IsOurs(r) && HasEntry(Repaired(s, b, env).b, r, true)
    requires r !in Stray(env, Repaired(s, b, env).unresolved)
    ensures HasEntry(Reconcile(s, b, env).b, r, true)
       <==> r !in StaleChildren(Repaired(s, b, env).s, Symbols(env.account))
  {
    var fix := Repaired(s, b, env);
    RepairedIsWell(s, b, env);
    var e :| e in fix.b.entries && e.ref == r && IsLive(e.name);
    CancelsExactlyStale(s, b, env, e);
    var ids := BrokerIds(fix.s, StaleChildren(fix.s, Symbols(env.account)));
    if HasEntry(Reconcile(s, b, env).b, r, true) {
      var f :| f in Reconcile(s, b, env).b.entries && f.ref == r && IsLive(f.name);
      CancelledLive(fix.b.entries, ids, f);
      SameRefSameEntry(fix.b, e, f);
    }
  }

  lemma StepKeepsLive(prev: Repair, env: Env, h: Held, r: string)
    requires ValidBook(prev.b) && LiveAnswers(env) && HasEntry(prev.b, r, true)
    ensures ValidBook(RepairedOne(prev, env, h).b) && HasEntry(RepairedOne(prev, env, h).b, r, true)
  {
    EmitAdds(prev.s, prev.b, env, h, r);
  }

  lemma RepairKeepsLive(s: Sys, b: Book, env: Env, covered: set<string>, r: string)
    requires ValidBook(b) && LiveAnswers(env) && HasEntry(b, r, true)
    ensures HasEntry(RepairAll(s, b, env, covered, env.account).b, r, true)
  {
    var P := (fix: Repair) => ValidBook(fix.b) && HasEntry(fix.b, r, true);
    forall prev: Repair, h | P(prev) ensures P(RepairedOne(prev, env, h)) {
      StepKeepsLive(prev, env, h, r);
    }
    RepairInduction(s, b, env, covered, |env.account|, P);
    assert env.account[..|env.account|] == env.account;
  }

  /** The symbol and parent of an order, through steps 1 to 4, unless it is its symbol's own new stop. */
  lemma FieldsAfterRepair(s: Sys, b: Book, env: Env, r: string)
    requires Sane(s, b, env) && r in s.mem.orders && r !in Stray(env, Repaired(s, b, env).unresolved)
    requires HasEntry(b, r, true) && s.mem.orders[r].symbol !in Symbols(env.account)
    ensures r in Repaired(s, b, env).s.mem.orders
    ensures SameFields(s.mem.orders[r], Repaired(s, b, env).s.mem.orders[r])
  {
    var t, n := Rebuilt(s, b, env), |env.account|;
    assert env.account[..n] == env.account;
    RebuiltSynced(s, b, env);
    RebuiltNames(s, b, env);
    NamesGiveNoClash(t, env);
    RebuiltKeepsFields(s, b, env, r);
    RepairSame(t, b, env, ProtectedSymbols(t), n, s.mem.orders[r].symbol, r);
  }

  /** A live order of ours for a symbol that is not held. */
  ghost predicate RestingUnheld(s: Sys, b: Book, env: Env, r: string) {
    r in s.mem.orders && HasEntry(b, r, true) && s.mem.orders[r].symbol !in Symbols(env.account)
  }

  lemma UnheldNotStray(s: Sys, b: Book, env: Env, r: string)
    requires Sane(s, b, env) && RestingUnheld(s, b, env, r)
    ensures r !in Stray(env, Repaired(s, b, env).unresolved)
  {
    var t := Rebuilt(s, b, env);
    RebuiltSynced(s, b, env);
    RebuiltNames(s, b, env);
    NamesGiveNoClash(t, env);
    RebuiltKeepsFields(s, b, env, r);
    RepairedIsWell(s, b, env);
  }

  /**
   * Step 5 does not ask whether the entry has filled: while a symbol is not held, a pass leaves a resting
   * entry of ours in the book and cancels the exits that rest with it.
   */
  lemma UnfilledEntryLosesExits(s: Sys, b: Book, env: Env, r: string)
    requires Sane(s, b, env) && RestingUnheld(s, b, env, r)
    ensures HasEntry(Reconcile(s, b, env).b, r, true) <==> s.mem.orders[r].parentRef.None?
  {
    var fix := Repaired(s, b, env);
    UnheldNotStray(s, b, env, r);
    FieldsAfterRepair(s, b, env, r);
    RepairedIsWell(s, b, env);
    RepairKeepsLive(Rebuilt(s, b, env), b, env, ProtectedSymbols(Rebuilt(s, b, env)), r);
    LiveAfterPass(s, b, env, r);
    var e :| e in fix.b.entries && e.ref == r && IsLive(e.name);
    assert fix.s.mem.orders[r].state.IsWorking() && fix.s.mem.orders[r].brokerId == Some(e.orderId);
    assert e.orderId != 0;
  }

  lemma HeldNotStale(s: Sys, b: Book, env: Env, r: string)
    requires Sane(s, b, env) && r in s.mem.orders && s.mem.orders[r].symbol in Symbols(env.account)
    ensures r !in StaleChildren(Repaired(s, b, env).s, Symbols(env.account))
  {
    var h :| h in env.account && h.symbol == s.mem.orders[r].symbol;
    RebuiltKeepsFields(s, b, env, r);
    PositionAfterRepair(s, b, env, h);
    if r != StopRef(env, h.symbol) { assert SameOf(Rebuilt(s, b, env), Repaired(s, b, env).s, h.symbol, r); }
  }

  /** While it is held, entry and exits all stay: so a working exit survives exactly when its symbol is held. */
  lemma HeldKeepsExits(s: Sys, b: Book, env: Env, r: string)
    requires Sane(s, b, env) && r in s.mem.orders && HasEntry(b, r, true)
    requires s.mem.orders[r].symbol in Symbols(env.account)
    ensures HasEntry(Reconcile(s, b, env).b, r, true)
  {
    var t, fix := Rebuilt(s, b, env), Repaired(s, b, env);
    HeldNotStale(s, b, env, r);
    RepairedIsWell(s, b, env);
    StaleNotStray(fix.s, env, fix.unresolved);
    RepairKeepsLive(t, b, env, ProtectedSymbols(t), r);
    var e :| e in fix.b.entries && e.ref == r && IsLive(e.name);
    CancelSpares(fix.s, fix.b, Stray(env, fix.unresolved), StaleChildren(fix.s, Symbols(env.account)), e);
    assert e in Reconcile(s, b, env).b.entries;
  }

  // ------------------------------------------------------------------ a stop that only the broker knows

  /** Order `r` works for the position's symbol, live at the broker, on the side that closes it. */
  ghost predicate ClosingLive(s: Sys, b: Book, h: Held, r: string) {
    && r in s.mem.orders && s.mem.orders[r].state.IsWorking() && s.mem.orders[r].symbol == h.symbol
    && s.mem.orders[r].action == ExitSide(h.position) && HasEntry(b, r, true)
  }

  /** A live order of ours on the closing side of which the process knows nothing. */
  ghost predicate OnlyAtBroker(s: Sys, b: Book, h: Held, e: Status) {
    && e in b.entries && IsLive(e.name) && IsOurs(e.ref) && e.ref !in s.mem.orders
    && e.symbol == h.symbol && e.action == ExitSide(h.position)
  }

  /** It is adopted without a stop price. */
  lemma AdoptedHasNoStop(s: Sys, b: Book, env: Env, h: Held, e: Status)
    requires Keyed(s) && ValidBook(b) && OnlyAtBroker(s, b, h, e)
    ensures var t := Rebuilt(s, b, env);
      ClosingLive(t, b, h, e.ref) && t.mem.orders[e.ref].stopPrice == None
  {
    LiveView(s, b, env.now, e);
    RebuiltSynced(s, b, env);
    OnExecutionsKeeps(DropOrphans(Applied(s, b, env.now), Known(b)), env.executions);
    assert HasEntry(b, e.ref, true);
  }

  lemma AdoptedStaysLive(s: Sys, b: Book, env: Env, h: Held, e: Status)
    requires Sane(s, b, env) && h in env.account && h.symbol !in Reconcile(s, b, env).report.unresolved
    requires OnlyAtBroker(s, b, h, e) && e.ref != StopRef(env, h.symbol)
    ensures ClosingLive(Reconcile(s, b, env).s, Reconcile(s, b, env).b, h, e.ref)
  {
    AdoptedHasNoStop(s, b, env, h, e);
    PositionAfterRepair(s, b, env, h);
    assert SameOf(Rebuilt(s, b, env), Repaired(s, b, env).s, h.symbol, e.ref);
    HeldStaysLive(s, b, env, h, e.ref);
  }

  lemma PlacedExactlyWhen(s: Sys, b: Book, env: Env, h: Held)
    requires Sane(s, b, env) && h in env.account && h.symbol !in Reconcile(s, b, env).report.unresolved
    ensures h.symbol in Reconcile(s, b, env).report.placed <==> h.symbol !in ProtectedSymbols(Rebuilt(s, b, env))
  {
    PositionAfterRepair(s, b, env, h);
    RepairLists(Rebuilt(s, b, env), b, env, ProtectedSymbols(Rebuilt(s, b, env)), |env.account|);
    assert env.account[..|env.account|] == env.account;
  }

  lemma PlacedCloses(s: Sys, b: Book, env: Env, h: Held)
    requires Sane(s, b, env) && h in env.account && h.symbol !in Reconcile(s, b, env).report.unresolved
    requires h.symbol !in ProtectedSymbols(Rebuilt(s, b, env))
    ensures ClosedBy(Reconcile(s, b, env).s, Reconcile(s, b, env).b, h, StopRef(env, h.symbol))
  {
    PositionAfterRepair(s, b, env, h);
    LiveAnswersDoNotEnd(env, h.symbol);
    HeldStaysLive(s, b, env, h, StopRef(env, h.symbol));
  }

  /**
   * Adopting an order forgets that it is a stop. A closing order of ours that only the broker knows stays
   * live, and a stop for the whole position is placed beside it exactly when nothing else passes for
   * protection; the position then has two.
   */
  lemma SecondStopExactlyWhen(s: Sys, b: Book, env: Env, h: Held, e: Status)
    requires Sane(s, b, env) && h in env.account && h.symbol !in Reconcile(s, b, env).report.unresolved
    requires OnlyAtBroker(s, b, h, e) && e.ref != StopRef(env, h.symbol)
    ensures var o := Reconcile(s, b, env);
      && ClosingLive(o.s, o.b, h, e.ref)
      && (h.symbol in o.report.placed <==> h.symbol !in ProtectedSymbols(Rebuilt(s, b, env)))
      && (h.symbol in o.report.placed ==> ClosedBy(o.s, o.b, h, StopRef(env, h.symbol)))
  {
    AdoptedStaysLive(s, b, env, h, e);
    PlacedExactlyWhen(s, b, env, h);
    if h.symbol !in ProtectedSymbols(Rebuilt(s, b, env)) { PlacedCloses(s, b, env, h); }
  }

  /** A store that lost everything, and the stop of a long position still resting at the broker. */
  function LostStore(ref: string, h: Held): (Sys, Book) {
    (Sys(FRESH, Disk(map[], map[])),
     Book([Status(ref, 1000, None, "Submitted", 0.0, h.position.quantity, None, h.symbol, "SELL")], 1001, [], 0))
  }

  lemma OnlyThatWorks(ref: string, h: Held, env: Env)
    requires IsOurs(ref) && h.position.IsLong()
    ensures var (s, b) := LostStore(ref, h);
      && Keyed(s) && ValidBook(b) && OnlyAtBroker(s, b, h, b.entries[0])
      && Keyed(Rebuilt(s, b, env)) && ProtectedSymbols(Rebuilt(s, b, env)) == {}
  {
    var (s, b) := LostStore(ref, h);
    var t := Rebuilt(s, b, env);
    AdoptedHasNoStop(s, b, env, h, b.entries[0]);
    RebuiltSynced(s, b, env);
    forall r | r in t.mem.orders && t.mem.orders[r].state.IsWorking() ensures t.mem.orders[r].stopPrice == None {
      assert HasEntry(b, r, true);
    }
  }

  lemma LostIsSane(day: string, cycle: string, env: Env, h: Held)
    requires PlainEnv(env) && LiveAnswers(env) && h in env.account && ColonFree(day) && ColonFree(cycle)
    ensures var (s, b) := LostStore(MakeRef(day, cycle, h.symbol, "STOP"), h);
            Sane(s, b, env)
  {
    assert h.symbol in Symbols(env.account);
    ParseMake(day, cycle, h.symbol, "STOP");
  }

  /** The failing case at an input: two orders that each sell the whole position. */
  lemma AdoptedStopIsDoubled(day: string, cycle: string, env: Env, h: Held)
    requires env.account == [h] && h.position.IsLong() && PlainEnv(env) && LiveAnswers(env) && Places(env, h)
    requires ColonFree(day) && ColonFree(cycle) && MakeRef(day, cycle, h.symbol, "STOP") != StopRef(env, h.symbol)
    ensures var ref := MakeRef(day, cycle, h.symbol, "STOP");
      var (s, b) := LostStore(ref, h);
      var o := Reconcile(s, b, env);
      && o.report.placed == [h.symbol] && ClosingLive(o.s, o.b, h, ref)
      && ClosedBy(o.s, o.b, h, StopRef(env, h.symbol))
  {
    var ref := MakeRef(day, cycle, h.symbol, "STOP");
    var (s, b) := LostStore(ref, h);
    MakeRefOurs(day, cycle, h.symbol, "STOP");
    LostIsSane(day, cycle, env, h);
    OnlyThatWorks(ref, h, env);
    OneRepair(Rebuilt(s, b, env), b, env, h, ProtectedSymbols(Rebuilt(s, b, env)));
    SecondStopExactlyWhen(s, b, env, h, b.entries[0]);
  }
}
