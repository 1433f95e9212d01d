/** A whole reconciliation pass as steps of a run, and what runs keep of the naming of orders. */
module OrderPasses {
  import opened Common
  import opened Domain
  import opened Refs
  import opened OrderModel
  import opened Reconciliation
  import opened ReconcileProofs
  import opened OrderRuns

  // ------------------------------------------------------------------ a pass

  function ExecutedSteps(now: real, es: seq<Execution>): seq<Step> {
    if es == [] then [] else ExecutedSteps(now, es[..|es| - 1]) + [Executed(now, es[|es| - 1])]
  }

  /** What the repair of one uncovered position does to the order manager. */
  function EmitSteps(b: Book, env: Env, h: Held): seq<Step> {
    var reference := ReferencePrice(Lookup(env.quotes, h.symbol), h.position);
    var now := StampOf(env, h.symbol).now;
    if reference.None? || reference.value <= 0.0 then [Refused(now, h.symbol)]
    else
      var mo := StopOrder(env, h, reference.value);
      if h.symbol !in env.answers then [WriteSingle(now, mo)] + [Refused(now, h.symbol)]
      else [WriteSingle(now, mo)] + [Reported(now, NewStatus(StopSpec(mo), b.nextId, env.answers[h.symbol]))]
  }

  function RepairSteps(s: Sys, b: Book, env: Env, covered: set<string>, account: seq<Held>): seq<Step> {
    if account == [] then []
    else
      var n := |account| - 1;
      var before := RepairSteps(s, b, env, covered, account[..n]);
      if account[n].symbol in covered then before
      else before + EmitSteps(RepairAll(s, b, env, covered, account[..n]).b, env, account[n])
  }

  function RebuildSteps(b: Book, env: Env): seq<Step> {
    [Resync(env.now, OpenOrders(b.entries), CompletedOrders(b.entries))] + ExecutedSteps(env.now, env.executions)
  }

  /** A whole pass: one resynchronisation, the executions, then the repairs in the account's order. */
  function PassSteps(s: Sys, b: Book, env: Env): seq<Step> {
    var t := Rebuilt(s, b, env);
    RebuildSteps(b, env) + RepairSteps(t, b, env, ProtectedSymbols(t), env.account)
  }

  /** The clock is read in the order of the repairs, each reading no earlier than the one before. */
  ghost predicate ClockRuns(env: Env, from: real) {
    && (forall i :: 0 <= i < |env.account| ==> from <= StampOf(env, env.account[i].symbol).now)
    && (forall i, j :: 0 <= i < j < |env.account| ==>
          StampOf(env, env.account[i].symbol).now <= StampOf(env, env.account[j].symbol).now)
  }

  lemma {:induction false} ExecutionsRun(w: World, now: real, es: seq<Execution>)
    requires w.clock <= now
    ensures Legal(w, ExecutedSteps(now, es))
    ensures var v := After(w, ExecutedSteps(now, es));
            v.s == OnExecutions(w.s, es) && v.clock <= now && v.handed == w.handed
  {
    if es == [] {
    } else {
      var n := |es| - 1;
      ExecutionsRun(w, now, es[..n]);
      var v := After(w, ExecutedSteps(now, es[..n]));
      AfterConcat(w, ExecutedSteps(now, es[..n]), [Executed(now, es[n])]);
      AfterOne(v, Executed(now, es[n]));
    }
  }

  lemma RebuildRuns(w: World, b: Book, env: Env)
    requires w.clock <= env.now
    ensures Legal(w, RebuildSteps(b, env))
    ensures var v := After(w, RebuildSteps(b, env));
            v.s == Rebuilt(w.s, b, env) && v.clock <= env.now && v.handed == w.handed
  {
    var first := Resync(env.now, OpenOrders(b.entries), CompletedOrders(b.entries));
    AfterOne(w, first);
    AfterConcat(w, [first], ExecutedSteps(env.now, env.executions));
    ExecutionsRun(Next(w, first), env.now, env.executions);
  }

  lemma EmitRuns(w: World, prev: Repair, env: Env, h: Held)
    requires w.s == prev.s && w.clock <= StampOf(env, h.symbol).now
    ensures Legal(w, EmitSteps(prev.b, env, h))
    ensures var v := After(w, EmitSteps(prev.b, env, h));
            v.s == RepairedOne(prev, env, h).s && v.clock <= StampOf(env, h.symbol).now && v.handed == w.handed
  {
    var reference := ReferencePrice(Lookup(env.quotes, h.symbol), h.position);
    var now := StampOf(env, h.symbol).now;
    if reference.None? || reference.value <= 0.0 {
      AfterOne(w, Refused(now, h.symbol));
    } else {
      var mo := StopOrder(env, h, reference.value);
      var second := if h.symbol !in env.answers then Refused(now, h.symbol)
                    else Reported(now, NewStatus(StopSpec(mo), prev.b.nextId, env.answers[h.symbol]));
      MakeRefOurs(StampOf(env, h.symbol).day, "protect-" + StampOf(env, h.symbol).second, h.symbol, "STOP");
      AfterOne(w, WriteSingle(now, mo));
      AfterConcat(w, [WriteSingle(now, mo)], [second]);
      AfterOne(Next(w, WriteSingle(now, mo)), second);
    }
  }

  lemma {:induction false} RepairsRun(w: World, b: Book, env: Env, covered: set<string>, n: nat)
    requires ClockRuns(env, env.now) && w.clock <= env.now && n <= |env.account|
    ensures Legal(w, RepairSteps(w.s, b, env, covered, env.account[..n]))
    ensures var v := After(w, RepairSteps(w.s, b, env, covered, env.account[..n]));
            && v.s == RepairAll(w.s, b, env, covered, env.account[..n]).s && v.handed == w.handed
            && (v.clock <= env.now || (n > 0 && v.clock <= StampOf(env, env.account[n - 1].symbol).now))
  {
    if n == 0 {
    } else {
      var h, account := env.account[n - 1], env.account[..n - 1];
      assert env.account[..n][..n - 1] == account;
      RepairsRun(w, b, env, covered, n - 1);
      if h.symbol !in covered {
        var before := RepairSteps(w.s, b, env, covered, account);
        var prev := RepairAll(w.s, b, env, covered, account);
        AfterConcat(w, before, EmitSteps(prev.b, env, h));
        EmitRuns(After(w, before), prev, env, h);
      }
    }
  }

  /**
   * A whole reconciliation pass is a legal run of the steps above: everything proved of all runs holds
   * with passes among their steps. It hands no entry to the broker.
   */
  lemma PassIsRun(w: World, b: Book, env: Env)
    requires w.clock <= env.now && ClockRuns(env, env.now)
    ensures Legal(w, PassSteps(w.s, b, env))
    ensures After(w, PassSteps(w.s, b, env)).s == Reconciliation.Reconcile(w.s, b, env).s
    ensures After(w, PassSteps(w.s, b, env)).handed == w.handed
  {
    var t := Rebuilt(w.s, b, env);
    var v := After(w, RebuildSteps(b, env));
    RebuildRuns(w, b, env);
    RepairsRun(v, b, env, ProtectedSymbols(t), |env.account|);
    assert env.account[..|env.account|] == env.account;
    AfterConcat(w, RebuildSteps(b, env), RepairSteps(t, b, env, ProtectedSymbols(t), env.account));
  }

  // ------------------------------------------------------------------ naming over runs

  /** A ref that parses names this symbol. */
  predicate Names(ref: string, symbol: string) {
    ParseRef(ref).Some? ==> ParseRef(ref).value.symbol == symbol
  }

  ghost predicate StatusesName(sts: seq<Status>) {
    forall st :: st in sts ==> Names(st.ref, st.symbol)
  }

  ghost predicate RowsName(d: Disk) {
    forall r :: r in d.rows ==> Names(r, d.rows[r].symbol)
  }

  /** What comes from outside the process names its symbol: the broker's statuses, and the store at a restart. */
  ghost predicate Naming(step: Step) {
    match step
    case Reported(_, st) => Names(st.ref, st.symbol)
    case Resync(_, open, completed) => StatusesName(open) && StatusesName(completed)
    case WriteSingle(_, mo) => Names(mo.ref, mo.symbol)
    case Crash(_, disk) => RowsName(disk)
    case _ => true
  }

  lemma StoreNames(s: Sys, mo: ManagedOrder, perm: Option<int>)
    requires NamesSymbols(s) && Names(mo.ref, mo.symbol)
    ensures NamesSymbols(Store(s, mo, perm))
  {
  }

  lemma ReportNames(s: Sys, st: Status)
    requires Mirror(s) && NamesSymbols(s) && Names(st.ref, st.symbol)
    ensures NamesSymbols(ApplyStatus(s, st))
  {
    if st.ref in s.mem.orders || IsOurs(st.ref) {
      var mo := if st.ref in s.mem.orders then s.mem.orders[st.ref] else Adopted(st);
      var perms := if Truthy(st.permId) then s.mem.perms[st.ref := st.permId.value] else s.mem.perms;
      StoreNames(s.(mem := s.mem.(perms := perms)), Updated(mo, st), st.permId);
    }
  }

  lemma {:induction false} OpenNames(s: Sys, open: seq<Status>)
    requires Mirror(s) && NamesSymbols(s) && StatusesName(open)
    ensures NamesSymbols(AbsorbOpen(s, open))
  {
    if open == [] {
    } else {
      var n := |open| - 1;
      OpenNames(s, open[..n]);
      AbsorbOpenMirror(s, open[..n]);
      ReportNames(AbsorbOpen(s, open[..n]), open[n]);
    }
  }

  lemma {:induction false} CompletedNames(s: Sys, completed: seq<Status>)
    requires Mirror(s) && NamesSymbols(s) && StatusesName(completed)
    ensures NamesSymbols(AbsorbCompleted(s, completed))
  {
    if completed == [] {
    } else {
      var n := |completed| - 1;
      CompletedNames(s, completed[..n]);
      AbsorbCompletedMirror(s, completed[..n]);
      ReportNames(AbsorbCompleted(s, completed[..n]), completed[n]);
    }
  }

  lemma ResyncNames(s: Sys, open: seq<Status>, completed: seq<Status>)
    requires Mirror(s) && NamesSymbols(s) && StatusesName(open) && StatusesName(completed)
    ensures NamesSymbols(Absorb(s, open, completed))
  {
    OpenNames(s, open);
    AbsorbOpenMirror(s, open);
    CompletedNames(AbsorbOpen(s, open), completed);
  }

  lemma {:induction false} WriteAheadNames(s: Sys, legs: seq<ManagedOrder>, n: nat)
    requires NamesSymbols(s) && n <= |legs| && forall i :: 0 <= i < |legs| ==> Names(legs[i].ref, legs[i].symbol)
    ensures NamesSymbols(WriteAhead(s, legs, n))
  {
    if n == 0 {
    } else {
      WriteAheadNames(s, legs, n - 1);
      StoreNames(WriteAhead(s, legs, n - 1), legs[n - 1], None);
    }
  }

  lemma PlaceNames(s: Sys, now: real, order: SizedOrder, cycle: string, days: Days)
    requires NamesSymbols(s)
    ensures NamesSymbols(BeginBracket(s, now, order, cycle, days).0)
  {
    ParseMake(days.entry, cycle, order.symbol, "ENTRY");
    ParseMake(days.stop, cycle, order.symbol, "STOP");
    ParseMake(days.target, cycle, order.symbol, "TARGET");
    WriteAheadNames(Unblock(s, now), Legs(order, cycle, days), 3);
  }

  lemma LoadNames(d: Disk)
    requires RowsName(d)
    ensures NamesSymbols(Load(Sys(FRESH, d)))
  {
    var good := Somes(Rebuild(d.rows));
    forall r | r in good ensures good[r].symbol == d.rows[r].symbol {
      assert Rebuild(d.rows)[r] == FromRow(r, d.rows[r]);
    }
  }

  lemma NextNames(w: World, step: Step)
    requires Mirror(w.s) && NamesSymbols(w.s) && Naming(step)
    ensures NamesSymbols(Next(w, step).s)
  {
    match step
    case Place(now, order, cycle, days) => PlaceNames(w.s, now, order, cycle, days);
    case Reported(_, st) => ReportNames(w.s, st);
    case Resync(now, open, completed) =>
      assert Mirror(Unblock(w.s, now)) && NamesSymbols(Unblock(w.s, now));
      ResyncNames(Unblock(w.s, now), open, completed);
    case WriteSingle(_, mo) => StoreNames(w.s, mo, None);
    case Crash(_, disk) => LoadNames(disk);
    case _ =>
  }

  /** Every order of a reachable state whose ref parses is in the symbol the ref names. */
  lemma {:induction false} RunNames(disk: Disk, clock: real, steps: seq<Step>)
    requires Sound(disk) && RowsName(disk) && Legal(Boot(disk, clock), steps)
    requires forall i :: 0 <= i < |steps| ==> Naming(steps[i])
    ensures NamesSymbols(After(Boot(disk, clock), steps).s)
  {
    if steps == [] {
      LoadNames(disk);
    } else {
      var n := |steps| - 1;
      RunNames(disk, clock, steps[..n]);
      BootInv(disk, clock);
      RunKeepsInv(Boot(disk, clock), steps[..n]);
      NextNames(After(Boot(disk, clock), steps[..n]), steps[n]);
    }
  }

  /**
   * After any run whatever, crashes included, a pass that meets a plain book and answers live protects
   * every open position, or reports it and blocks its symbol.
   */
  lemma PassProtectsAfterAnyRun(disk: Disk, clock: real, steps: seq<Step>, b: Book, env: Env, h: Held)
    requires Sound(disk) && RowsName(disk) && Legal(Boot(disk, clock), steps)
    requires forall i :: 0 <= i < |steps| ==> Naming(steps[i])
    requires ValidBook(b) && BookNamesSymbols(b) && PlainEnv(env) && LiveAnswers(env) && h in env.account
    ensures var o := Reconciliation.Reconcile(After(Boot(disk, clock), steps).s, b, env);
            || Covered(o.s, o.b, h.symbol)
            || (h.symbol in o.report.unresolved && h.symbol in o.s.mem.blocked)
  {
    BootInv(disk, clock);
    RunKeepsInv(Boot(disk, clock), steps);
    RunNames(disk, clock, steps);
    ReconcileProtects(After(Boot(disk, clock), steps).s, b, env, h);
  }
}
