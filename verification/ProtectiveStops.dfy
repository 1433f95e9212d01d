/** The stops a pass places: at which price, for which positions and no others, and when they go again. */
module ProtectiveStops {
  import opened Common
  import opened Refs
  import opened OrderModel
  import opened Reconciliation
  import opened ReconcileProofs
  import opened ReconcileLimits
  import opened Terms

  // ------------------------------------------------------------------ what is sent

  /** A stop order for the whole position, on its closing side, three percent from the price it is measured from. */
  ghost predicate IsStopSpec(spec: Spec, env: Env, h: Held) {
    && spec.ref == StopRef(env, h.symbol) && spec.symbol == h.symbol && spec.orderType == "STP"
    && spec.action == (if h.position.quantity > 0.0 then "SELL" else "BUY")
    && spec.quantity == Abs(h.position.quantity) && spec.limitPrice.None? && spec.ocaGroup.None?
    && spec.stopPrice.Some? && ToTheCent(spec.stopPrice.value, StopTarget(env, h))
  }

  ghost predicate SentFor(spec: Spec, env: Env, covered: set<string>, symbol: string) {
    symbol !in covered
    && exists h :: h in env.account && h.symbol == symbol && Places(env, h) && IsStopSpec(spec, env, h)
  }

  /** What was sent after `before` is one stop for each listed symbol, in that order, and nothing else. */
  ghost predicate SentAsListed(before: seq<Spec>, after: seq<Spec>, listed: seq<string>, env: Env, covered: set<string>)
  {
    && |after| == |before| + |listed| && after[..|before|] == before
    && forall i :: 0 <= i < |listed| ==> SentFor(after[|before| + i], env, covered, listed[i])
  }

  lemma OneMoreSent(before: seq<Spec>, sent: seq<Spec>, listed: seq<string>, env: Env, covered: set<string>, h: Held,
      spec: Spec)
    requires SentAsListed(before, sent, listed, env, covered)
    requires h in env.account && h.symbol !in covered && Places(env, h) && IsStopSpec(spec, env, h)
    ensures SentAsListed(before, sent + [spec], listed + [h.symbol], env, covered)
  {
    assert SentFor(spec, env, covered, h.symbol);
  }

  lemma EmitSends(s: Sys, b: Book, env: Env, h: Held)
    requires Keyed(s)
    ensures var e := Emit(s, b, env, h);
      && (e.placed <==> Places(env, h)) && (!e.placed ==> e.b.placed == b.placed)
      && (e.placed ==> exists spec :: e.b.placed == b.placed + [spec] && IsStopSpec(spec, env, h))
  {
    EmitExactly(s, b, env, h);
    StopOrderIs(env, h);
    if Places(env, h) {
      var mo := StopOrder(env, h, ReferencePrice(Lookup(env.quotes, h.symbol), h.position).value);
      assert IsStopSpec(StopSpec(mo), env, h) && Emit(s, b, env, h).b.placed == b.placed + [StopSpec(mo)];
    }
  }

  lemma StepSends(b: Book, env: Env, covered: set<string>, prev: Repair, h: Held)
    requires Keyed(prev.s) && SentAsListed(b.placed, prev.b.placed, prev.placed, env, covered)
    requires h in env.account && h.symbol !in covered
    ensures var fix := RepairedOne(prev, env, h);
      Keyed(fix.s) && SentAsListed(b.placed, fix.b.placed, fix.placed, env, covered)
  {
    EmitSends(prev.s, prev.b, env, h);
    EmitExactly(prev.s, prev.b, env, h);
    var e := Emit(prev.s, prev.b, env, h);
    if e.placed {
      var spec :| e.b.placed == prev.b.placed + [spec] && IsStopSpec(spec, env, h);
      OneMoreSent(b.placed, prev.b.placed, prev.placed, env, covered, h, spec);
    }
  }

  lemma RepairSends(s: Sys, b: Book, env: Env, covered: set<string>)
    requires Keyed(s)
    ensures var fix := RepairAll(s, b, env, covered, env.account);
      SentAsListed(b.placed, fix.b.placed, fix.placed, env, covered)
  {
    var P := (fix: Repair) => Keyed(fix.s) && SentAsListed(b.placed, fix.b.placed, fix.placed, env, covered);
    forall prev: Repair, h | P(prev) && h in env.account && h.symbol !in covered ensures P(RepairedOne(prev, env, h)) {
      StepSends(b, env, covered, prev, h);
    }
    RepairInduction(s, b, env, covered, |env.account|, P);
    assert env.account[..|env.account|] == env.account;
  }

  lemma OnePosition(account: seq<Held>, g: Held, h: Held)
    requires OncePerSymbol(account) && g in account && h in account && g.symbol == h.symbol
    ensures g == h
  {
  }

  /**
   * A whole pass sends exactly one stop for each symbol it reports as placed, in that order, each for a
   * position held without one and at its price, and sends nothing else.
   */
  lemma StopsSent(s: Sys, b: Book, env: Env)
    requires WellFormed(s, b, env)
    ensures var o := Reconcile(s, b, env); var covered := ProtectedSymbols(Rebuilt(s, b, env));
      SentAsListed(b.placed, o.b.placed, o.report.placed, env, covered)
  {
    RebuiltSynced(s, b, env);
    RepairSends(Rebuilt(s, b, env), b, env, ProtectedSymbols(Rebuilt(s, b, env)));
  }

  lemma SentSpecIs(before: seq<Spec>, after: seq<Spec>, listed: seq<string>, env: Env, covered: set<string>, h: Held,
      k: nat)
    requires OncePerSymbol(env.account) && h in env.account && SentAsListed(before, after, listed, env, covered)
    requires |before| <= k < |after| && after[k].symbol == h.symbol
    ensures IsStopSpec(after[k], env, h)
  {
    var i := k - |before|;
    assert SentFor(after[|before| + i], env, covered, listed[i]);
    var g :| g in env.account && g.symbol == listed[i] && Places(env, g) && IsStopSpec(after[k], env, g);
    OnePosition(env.account, g, h);
  }

  /**
   * The stop of a position held without one is measured from the mid of two sides or the last trade when
   * the quote can be priced, else from a mark that is not zero, else from the cost. It is stored whenever
   * that is positive, and sent and reported placed exactly when the call also returns.
   */
  lemma StopIsMeasured(s: Sys, b: Book, env: Env, h: Held)
    requires WellFormed(s, b, env) && h in env.account && h.symbol !in ProtectedSymbols(Rebuilt(s, b, env))
    ensures var o := Reconcile(s, b, env);
      && (StopBase(env, h) > 0.0 ==>
            StopRef(env, h.symbol) in o.s.mem.orders && IsStopFor(o.s.mem.orders[StopRef(env, h.symbol)], env, h))
      && (h.symbol in o.report.placed <==> StopBase(env, h) > 0.0 && h.symbol in env.answers)
      && (h.symbol in o.report.unresolved <==> h.symbol !in o.report.placed)
      && (forall k :: |b.placed| <= k < |o.b.placed| && o.b.placed[k].symbol == h.symbol ==>
            IsStopSpec(o.b.placed[k], env, h))
  {
    var o, covered := Reconcile(s, b, env), ProtectedSymbols(Rebuilt(s, b, env));
    PositionAfterRepair(s, b, env, h);
    StopsSent(s, b, env);
    forall k | |b.placed| <= k < |o.b.placed| && o.b.placed[k].symbol == h.symbol
      ensures IsStopSpec(o.b.placed[k], env, h)
    {
      SentSpecIs(b.placed, o.b.placed, o.report.placed, env, covered, h, k);
    }
  }

  // ------------------------------------------------------------------ the next pass

  ghost predicate FitForPass(s: Sys, b: Book) {
    Keyed(s) && ValidBook(b) && NamesSymbols(s) && BookNamesSymbols(b)
  }

  lemma StopRefNames(env: Env, x: string)
    requires PlainEnv(env) && x in Symbols(env.account)
    ensures ParseRef(StopRef(env, x)).Some? && ParseRef(StopRef(env, x)).value.symbol == x
  {
    ColonFreeConcat("protect-", StampOf(env, x).second);
    ParseMake(StampOf(env, x).day, "protect-" + StampOf(env, x).second, x, "STOP");
  }

  lemma UpsertNames(entries: seq<Status>, st: Status)
    ensures forall e :: e in Upsert(entries, st) ==> e in entries || e == st
  {
    if entries == [] {
    } else if entries[0].ref == st.ref {
    } else {
      UpsertNames(entries[1..], st);
    }
  }

  lemma EmitNames(s: Sys, b: Book, env: Env, h: Held)
    requires PlainEnv(env) && h in env.account && BookNamesSymbols(b)
    ensures BookNamesSymbols(Emit(s, b, env, h).b)
  {
    StopRefNames(env, h.symbol);
    if Emit(s, b, env, h).placed {
      var mo := StopOrder(env, h, ReferencePrice(Lookup(env.quotes, h.symbol), h.position).value);
      UpsertNames(b.entries, NewStatus(StopSpec(mo), b.nextId, env.answers[h.symbol]));
    }
  }

  lemma StepStaysFit(env: Env, prev: Repair, h: Held)
    requires PlainEnv(env) && h in env.account && FitForPass(prev.s, prev.b)
    ensures FitForPass(RepairedOne(prev, env, h).s, RepairedOne(prev, env, h).b)
  {
    EmitExactly(prev.s, prev.b, env, h);
    EmitValid(prev.s, prev.b, env, h);
    EmitNames(prev.s, prev.b, env, h);
    StopRefNames(env, h.symbol);
  }

  /** A pass leaves the order manager and the book fit for the next one. */
  lemma PassStaysFit(s: Sys, b: Book, env: Env)
    requires WellFormed(s, b, env)
    ensures FitForPass(Reconcile(s, b, env).s, Reconcile(s, b, env).b)
  {
    var t := Rebuilt(s, b, env);
    RebuiltSynced(s, b, env);
    RebuiltNames(s, b, env);
    var P := (fix: Repair) => FitForPass(fix.s, fix.b);
    forall prev: Repair, h | P(prev) && h in env.account ensures P(RepairedOne(prev, env, h)) {
      StepStaysFit(env, prev, h);
    }
    RepairInduction(t, b, env, ProtectedSymbols(t), |env.account|, P);
    assert env.account[..|env.account|] == env.account;
    var fix := Repaired(s, b, env);
    CancelValid(fix.b, BrokerIds(fix.s, StaleChildren(fix.s, Symbols(env.account))),
                Reconcile(s, b, env).b.cancelRequests);
  }

  /**
   * A recovered stop is a child like any other: once its symbol is no longer held, the next pass cancels it
   * at the broker.
   */
  lemma RecoveredStopGoes(s: Sys, b: Book, env: Env, h: Held, next: Env)
    requires Sane(s, b, env) && h in env.account && h.symbol !in ProtectedSymbols(Rebuilt(s, b, env))
    requires h.symbol in Reconcile(s, b, env).report.placed
    requires PlainEnv(next) && LiveAnswers(next) && h.symbol !in Symbols(next.account)
    ensures var o := Reconcile(s, b, env);
      && HasEntry(o.b, StopRef(env, h.symbol), true)
      && !HasEntry(Reconcile(o.s, o.b, next).b, StopRef(env, h.symbol), true)
  {
    var o := Reconcile(s, b, env);
    StopIsMeasured(s, b, env, h);
    PlacedCloses(s, b, env, h);
    PassStaysFit(s, b, env);
    UnfilledEntryLosesExits(o.s, o.b, next, StopRef(env, h.symbol));
  }
}
