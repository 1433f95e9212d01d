/** What a reconciliation pass guarantees, and that a second one has nothing left to do. */
module ReconcileProofs {
  import opened Common
  import opened Refs
  import opened OrderModel
  import opened Reconciliation

  /** Orders are keyed by their own ref, and every ref is one of ours. */
  ghost predicate Keyed(s: Sys) {
    forall r :: r in s.mem.orders ==> s.mem.orders[r].ref == r && IsOurs(r)
  }

  ghost predicate DistinctRefs(sts: seq<Status>) {
    forall i, j :: 0 <= i < j < |sts| ==> sts[i].ref != sts[j].ref
  }

  // ------------------------------------------------------------------ what absorbing does to one order

  /** `t` is `s` with every status in `sts` applied to its own order, and no other order touched. */
  ghost predicate AppliedExactly(s: Sys, t: Sys, sts: seq<Status>) {
    && (forall e :: e in sts ==>
          && e.ref in t.mem.orders
          && t.mem.orders[e.ref] == Updated(if e.ref in s.mem.orders then s.mem.orders[e.ref] else Adopted(e), e))
    && (forall r :: (forall e :: e in sts ==> e.ref != r) ==>
          && (r in t.mem.orders <==> r in s.mem.orders)
          && (r in t.mem.orders ==> t.mem.orders[r] == s.mem.orders[r]))
  }

  lemma ApplyStatusOne(s: Sys, e: Status)
    requires Keyed(s) && IsOurs(e.ref)
    ensures Keyed(ApplyStatus(s, e))
    ensures ApplyStatus(s, e).mem.orders ==
            s.mem.orders[e.ref := Updated(if e.ref in s.mem.orders then s.mem.orders[e.ref] else Adopted(e), e)]
  {
  }

  /** The statuses of `sts` that concern us. */
  function Ours(sts: seq<Status>): seq<Status> {
    Filter((e: Status) => IsOurs(e.ref), sts)
  }

  lemma {:induction false} AbsorbOpenExactly(s: Sys, open: seq<Status>)
    requires Keyed(s) && DistinctRefs(open)
    ensures Keyed(AbsorbOpen(s, open))
    ensures AppliedExactly(s, AbsorbOpen(s, open), Ours(open))
  {
    if open == [] {
    } else {
      var n := |open| - 1;
      AbsorbOpenExactly(s, open[..n]);
      assert open[..n + 1] == open;
      FilterLast((e: Status) => IsOurs(e.ref), open, n);
      if IsOurs(open[n].ref) {
        ApplyStatusOne(AbsorbOpen(s, open[..n]), open[n]);
        forall e | e in Ours(open[..n]) ensures e.ref != open[n].ref {
          assert e in open[..n];
        }
        assert Ours(open) == Ours(open[..n]) + [open[n]];
        assert open[n] in Ours(open);
      }
    }
  }

  lemma {:induction false} CompletedKeys(s: Sys, completed: seq<Status>)
    requires Keyed(s)
    ensures Keyed(AbsorbCompleted(s, completed)) && AbsorbCompleted(s, completed).mem.orders.Keys == s.mem.orders.Keys
  {
    if completed == [] {
    } else {
      var n := |completed| - 1;
      CompletedKeys(s, completed[..n]);
      if IsOurs(completed[n].ref) { ApplyStatusOne(AbsorbCompleted(s, completed[..n]), completed[n]); }
    }
  }

  lemma {:induction false} AbsorbCompletedExactly(s: Sys, completed: seq<Status>)
    requires Keyed(s) && DistinctRefs(completed)
    ensures Keyed(AbsorbCompleted(s, completed))
    ensures AbsorbCompleted(s, completed).mem.orders.Keys == s.mem.orders.Keys
    ensures forall e :: e in completed && e.ref in s.mem.orders ==>
              AbsorbCompleted(s, completed).mem.orders[e.ref] == Updated(s.mem.orders[e.ref], e)
    ensures forall r :: r in s.mem.orders && (forall e :: e in completed ==> e.ref != r) ==>
              AbsorbCompleted(s, completed).mem.orders[r] == s.mem.orders[r]
  {
    CompletedKeys(s, completed);
    if completed == [] {
    } else {
      var n := |completed| - 1;
      var last, t := completed[n], AbsorbCompleted(s, completed[..n]);
      AbsorbCompletedExactly(s, completed[..n]);
      assert completed == completed[..n] + [last];
      forall e | e in completed[..n] ensures e.ref != last.ref {}
      if last.ref in s.mem.orders {
        ApplyStatusOne(t, last);
        assert AbsorbCompleted(s, completed).mem.orders
            == t.mem.orders[last.ref := Updated(s.mem.orders[last.ref], last)];
      }
    }
  }

  lemma {:induction false} FilterDistinctRefs(keep: Status -> bool, sts: seq<Status>)
    requires DistinctRefs(sts)
    ensures DistinctRefs(Filter(keep, sts))
  {
    if sts == [] {
    } else {
      FilterDistinctRefs(keep, sts[1..]);
      forall e | e in sts[1..] ensures e.ref != sts[0].ref {}
    }
  }

  /** Entries of one book that share a ref are the same entry. */
  lemma SameRefSameEntry(b: Book, e: Status, e': Status)
    requires ValidBook(b) && e in b.entries && e' in b.entries && e.ref == e'.ref
    ensures e == e'
  {
  }

  lemma OurRefNonEmpty(ref: string)
    requires IsOurs(ref)
    ensures ref != ""
  {
  }

  ghost predicate HasEntry(b: Book, ref: string, live: bool) {
    exists e :: e in b.entries && e.ref == ref && (if live then IsLive(e.name) else IsDone(e.name))
  }

  lemma KnownExactly(b: Book, ref: string)
    requires ref != ""
    ensures ref in Known(b) <==> HasEntry(b, ref, true) || HasEntry(b, ref, false)
  {
    var open, completed := OpenOrders(b.entries), CompletedOrders(b.entries);
    if HasEntry(b, ref, true) {
      var e :| e in b.entries && e.ref == ref && IsLive(e.name);
      assert e in open + completed;
    }
    if HasEntry(b, ref, false) {
      var e :| e in b.entries && e.ref == ref && IsDone(e.name);
      assert e in open + completed;
    }
    if ref in Known(b) {
      var e: Status :| e in open + completed && e.ref == ref;
      assert e in open || e in completed;
    }
  }

  /** Local state once the open orders, but not yet the completed ones, have been applied. */
  function AfterOpen(s: Sys, b: Book, now: real): Sys {
    AbsorbOpen(Unblock(s, now), OpenOrders(b.entries))
  }

  lemma OpenStage(s: Sys, b: Book, now: real)
    requires Keyed(s) && ValidBook(b)
    ensures Keyed(AfterOpen(s, b, now))
    ensures AppliedExactly(s, AfterOpen(s, b, now), Ours(OpenOrders(b.entries)))
  {
    FilterDistinctRefs((e: Status) => IsLive(e.name), b.entries);
    AbsorbOpenExactly(Unblock(s, now), OpenOrders(b.entries));
  }

  /** The completed orders do not touch what none of them mentions. */
  lemma CompletedSkips(b: Book, o: Sys, r: string)
    requires Keyed(o) && ValidBook(b) && r in o.mem.orders
    requires forall c :: c in b.entries && IsDone(c.name) ==> c.ref != r
    ensures r in AbsorbCompleted(o, CompletedOrders(b.entries)).mem.orders
    ensures AbsorbCompleted(o, CompletedOrders(b.entries)).mem.orders[r] == o.mem.orders[r]
  {
    FilterDistinctRefs((c: Status) => IsDone(c.name), b.entries);
    AbsorbCompletedExactly(o, CompletedOrders(b.entries));
  }

  /** A live order of ours ends up with its status applied. */
  lemma LiveView(s: Sys, b: Book, now: real, e: Status)
    requires Keyed(s) && ValidBook(b) && e in b.entries && IsLive(e.name) && IsOurs(e.ref)
    ensures e.ref in Applied(s, b, now).mem.orders
    ensures Applied(s, b, now).mem.orders[e.ref] ==
            Updated(if e.ref in s.mem.orders then s.mem.orders[e.ref] else Adopted(e), e)
  {
    OpenStage(s, b, now);
    assert e in Ours(OpenOrders(b.entries));
    forall c | c in b.entries && IsDone(c.name) ensures c.ref != e.ref {
      if c.ref == e.ref { SameRefSameEntry(b, c, e); }
    }
    CompletedSkips(b, AfterOpen(s, b, now), e.ref);
  }

  lemma OpenSkips(s: Sys, t: Sys, sts: seq<Status>, r: string)
    requires AppliedExactly(s, t, sts) && r in s.mem.orders && forall c :: c in sts ==> c.ref != r
    ensures r in t.mem.orders && t.mem.orders[r] == s.mem.orders[r]
  {
  }

  lemma NoneOfOursOpen(b: Book, e: Status)
    requires ValidBook(b) && e in b.entries && IsDone(e.name)
    ensures forall c :: c in Ours(OpenOrders(b.entries)) ==> c.ref != e.ref
  {
    forall c | c in Ours(OpenOrders(b.entries)) ensures c.ref != e.ref {
      assert c in OpenOrders(b.entries);
      if c.ref == e.ref { SameRefSameEntry(b, c, e); }
    }
  }

  /** The open orders do not touch a completed one. */
  lemma OpenSkipsDone(s: Sys, b: Book, now: real, e: Status)
    requires Keyed(s) && ValidBook(b) && e in b.entries && IsDone(e.name) && e.ref in s.mem.orders
    ensures e.ref in AfterOpen(s, b, now).mem.orders
    ensures AfterOpen(s, b, now).mem.orders[e.ref] == s.mem.orders[e.ref]
  {
    OpenStage(s, b, now);
    NoneOfOursOpen(b, e);
    OpenSkips(s, AfterOpen(s, b, now), Ours(OpenOrders(b.entries)), e.ref);
  }

  /** A completed order known locally ends up with its status applied. */
  lemma DoneView(s: Sys, b: Book, now: real, e: Status)
    requires Keyed(s) && ValidBook(b) && e in b.entries && IsDone(e.name) && e.ref in s.mem.orders
    ensures e.ref in Applied(s, b, now).mem.orders
    ensures Applied(s, b, now).mem.orders[e.ref] == Updated(s.mem.orders[e.ref], e)
  {
    OpenSkipsDone(s, b, now, e);
    var o, completed := AfterOpen(s, b, now), CompletedOrders(b.entries);
    assert Keyed(o) by { OpenStage(s, b, now); }
    FilterDistinctRefs((c: Status) => IsDone(c.name), b.entries);
    AbsorbCompletedExactly(o, completed);
    assert e in completed;
  }

  /** An order the broker does not mention is left as it was. */
  lemma UnmentionedView(s: Sys, b: Book, now: real, r: string)
    requires Keyed(s) && ValidBook(b) && r in s.mem.orders && !HasEntry(b, r, true) && !HasEntry(b, r, false)
    ensures r in Applied(s, b, now).mem.orders
    ensures Applied(s, b, now).mem.orders[r] == s.mem.orders[r]
  {
    OpenStage(s, b, now);
    FilterDistinctRefs((c: Status) => IsDone(c.name), b.entries);
    AbsorbCompletedExactly(AfterOpen(s, b, now), CompletedOrders(b.entries));
    assert forall c :: c in Ours(OpenOrders(b.entries)) ==> c in OpenOrders(b.entries);
  }

  /** The only orders that appear are live ones of ours, and none disappears. */
  lemma AppliedKeys(s: Sys, b: Book, now: real)
    requires Keyed(s) && ValidBook(b)
    ensures Keyed(Applied(s, b, now))
    ensures s.mem.orders.Keys <= Applied(s, b, now).mem.orders.Keys
    ensures forall r :: r in Applied(s, b, now).mem.orders ==> r in s.mem.orders || HasEntry(b, r, true)
  {
    OpenStage(s, b, now);
    FilterDistinctRefs((c: Status) => IsDone(c.name), b.entries);
    AbsorbCompletedExactly(AfterOpen(s, b, now), CompletedOrders(b.entries));
    forall r | r in AfterOpen(s, b, now).mem.orders ensures r in s.mem.orders || HasEntry(b, r, true) {
      if r !in s.mem.orders {
        var c: Status :| c in Ours(OpenOrders(b.entries)) && c.ref == r;
        assert c in OpenOrders(b.entries);
      }
    }
    forall r | r in s.mem.orders ensures r in AfterOpen(s, b, now).mem.orders {
      if e: Status :| e in Ours(OpenOrders(b.entries)) && e.ref == r {}
    }
  }

  // ------------------------------------------------------------------ local view equals broker view

  /**
   * Outside `stray`, the orders that work locally are exactly the broker's live orders of ours, each
   * known under the broker's id.
   */
  ghost predicate Synced(s: Sys, b: Book, stray: set<string>) {
    && (forall e :: e in b.entries && IsLive(e.name) && IsOurs(e.ref) && e.ref !in stray ==>
          && e.ref in s.mem.orders
          && s.mem.orders[e.ref].state.IsWorking()
          && s.mem.orders[e.ref].brokerId == Some(e.orderId))
    && (forall r :: r in s.mem.orders && s.mem.orders[r].state.IsWorking() && r !in stray ==> HasEntry(b, r, true))
  }

  lemma LiveIsWorking(mo: ManagedOrder, e: Status)
    requires IsLive(e.name)
    ensures Updated(mo, e).state.IsWorking()
  {
  }

  lemma DoneIsTerminal(mo: ManagedOrder, e: Status)
    requires IsDone(e.name)
    ensures !Updated(mo, e).state.IsWorking()
  {
  }

  /** Once orphans are dropped, what works locally is what is live at the broker. */
  lemma RebuiltSynced(s: Sys, b: Book, env: Env)
    requires Keyed(s) && ValidBook(b)
    ensures Keyed(Rebuilt(s, b, env))
    ensures Synced(Rebuilt(s, b, env), b, {})
    ensures Rebuilt(s, b, env).mem.orders.Keys == Applied(s, b, env.now).mem.orders.Keys
  {
    AppliedKeys(s, b, env.now);
    var a := Applied(s, b, env.now);
    var d := DropOrphans(a, Known(b));
    OnExecutionsKeeps(d, env.executions);
    forall e | e in b.entries && IsLive(e.name) && IsOurs(e.ref)
      ensures e.ref in d.mem.orders && d.mem.orders[e.ref].state.IsWorking()
      ensures d.mem.orders[e.ref].brokerId == Some(e.orderId)
    {
      LiveView(s, b, env.now, e);
      LiveIsWorking(if e.ref in s.mem.orders then s.mem.orders[e.ref] else Adopted(e), e);
      OurRefNonEmpty(e.ref);
      KnownExactly(b, e.ref);
      assert HasEntry(b, e.ref, true);
      assert e.orderId != 0;
    }
    forall r | r in d.mem.orders && d.mem.orders[r].state.IsWorking()
      ensures HasEntry(b, r, true)
    {
      OurRefNonEmpty(r);
      KnownExactly(b, r);
      assert r in Known(b);
      if !HasEntry(b, r, true) {
        var e :| e in b.entries && e.ref == r && IsDone(e.name);
        DoneView(s, b, env.now, e);
        DoneIsTerminal(s.mem.orders[r], e);
      }
    }
  }

  // ------------------------------------------------------------------ repairing positions

  /** A stop placement, if it does not raise, is answered with a live status. */
  ghost predicate LiveAnswers(env: Env) {
    forall x :: x in env.answers ==> IsLive(env.answers[x].name)
  }

  /** Refs of the stops written ahead in this pass whose placement failed. */
  function Stray(env: Env, unresolved: seq<string>): set<string> {
    set x | x in unresolved :: StopRef(env, x)
  }

  lemma {:induction false} UpsertFacts(entries: seq<Status>, st: Status)
    requires DistinctRefs(entries)
    requires forall i, j :: 0 <= i < j < |entries| ==> entries[i].orderId != entries[j].orderId
    requires forall i :: 0 <= i < |entries| ==> entries[i].orderId < st.orderId
    ensures forall e :: e in Upsert(entries, st) <==> e == st || (e in entries && e.ref != st.ref)
    ensures DistinctRefs(Upsert(entries, st))
    ensures forall i, j :: 0 <= i < j < |Upsert(entries, st)| ==>
              Upsert(entries, st)[i].orderId != Upsert(entries, st)[j].orderId
  {
    if entries == [] {
    } else {
      forall e | e in entries[1..]
        ensures e.ref != entries[0].ref && e.orderId != entries[0].orderId && e.orderId < st.orderId {}
      if entries[0].ref != st.ref {
        UpsertFacts(entries[1..], st);
      }
    }
  }

  lemma PlaceSingleValid(b: Book, spec: Spec, a: Answer)
    requires ValidBook(b)
    ensures ValidBook(PlaceSingle(b, spec, a))
    ensures forall e :: e in PlaceSingle(b, spec, a).entries <==>
              e == NewStatus(spec, b.nextId, a) || (e in b.entries && e.ref != spec.ref)
  {
    UpsertFacts(b.entries, NewStatus(spec, b.nextId, a));
    var es := PlaceSingle(b, spec, a).entries;
    forall i | 0 <= i < |es| ensures 0 < es[i].orderId < b.nextId + 1 {
      assert es[i] in es;
    }
  }

  /** Writing one working order and the live entry that reports it keeps the two views equal. */
  lemma PairSynced(s: Sys, t: Sys, b: Book, b': Book, mo: ManagedOrder, st: Status, stray: set<string>)
    requires Synced(s, b, stray)
    requires t.mem.orders == s.mem.orders[st.ref := mo]
    requires forall e :: e in b'.entries <==> e == st || (e in b.entries && e.ref != st.ref)
    requires mo.state.IsWorking() && mo.brokerId == Some(st.orderId) && IsLive(st.name)
    ensures Synced(t, b', stray) && HasEntry(b', st.ref, true)
  {
    assert st in b'.entries;
    forall r | r in t.mem.orders && t.mem.orders[r].state.IsWorking() && r !in stray ensures HasEntry(b', r, true) {
      if r != st.ref {
        var e :| e in b.entries && e.ref == r && IsLive(e.name);
        assert e in b'.entries;
      }
    }
  }

  /** A placement that succeeds keeps the two views equal. */
  lemma AcceptedSynced(s: Sys, b: Book, mo: ManagedOrder, a: Answer, stray: set<string>)
    requires Keyed(s) && ValidBook(b) && Synced(s, b, stray) && IsLive(a.name) && IsOurs(mo.ref)
    ensures var st := NewStatus(StopSpec(mo), b.nextId, a);
            var t := ApplyStatus(Store(s, mo, None), st);
            var b' := PlaceSingle(b, StopSpec(mo), a);
            && Keyed(t) && ValidBook(b') && Synced(t, b', stray)
            && t.mem.orders == s.mem.orders[mo.ref := Updated(mo, st)]
            && Updated(mo, st).state.IsWorking() && HasEntry(b', mo.ref, true)
  {
    var st := NewStatus(StopSpec(mo), b.nextId, a);
    PlaceSingleValid(b, StopSpec(mo), a);
    ApplyStatusOne(Store(s, mo, None), st);
    var t := ApplyStatus(Store(s, mo, None), st);
    LiveIsWorking(mo, st);
    assert t.mem.orders == s.mem.orders[mo.ref := Updated(mo, st)];
    PairSynced(s, t, b, PlaceSingle(b, StopSpec(mo), a), Updated(mo, st), st, stray);
  }

  /** A placement that fails leaves at most its own row out of step. */
  lemma RefusedSynced(s: Sys, b: Book, mo: ManagedOrder, stray: set<string>)
    requires Keyed(s) && Synced(s, b, stray) && IsOurs(mo.ref)
    ensures Keyed(Store(s, mo, None)) && Synced(Store(s, mo, None), b, stray + {mo.ref})
  {
  }

  lemma SyncedMore(s: Sys, b: Book, stray: set<string>, more: set<string>)
    requires Synced(s, b, stray) && stray <= more
    ensures Synced(s, b, more)
  {
  }

  /** The stop order that repairing this position writes, if it gets as far as writing one. */
  ghost predicate StopFor(env: Env, h: Held, mo: ManagedOrder) {
    && mo.ref == StopRef(env, h.symbol) && IsOurs(mo.ref)
    && mo.symbol == h.symbol && mo.stopPrice.Some? && mo.state == Pending
  }

  lemma EmitCases(s: Sys, b: Book, env: Env, h: Held) returns (mo: ManagedOrder)
    ensures StopFor(env, h, mo)
    ensures var e := Emit(s, b, env, h);
      || (!e.placed && e.s == s && e.b == b)
      || (!e.placed && e.s == Store(s, mo, None) && e.b == b)
      || (&& e.placed && h.symbol in env.answers
          && e.s == ApplyStatus(Store(s, mo, None), NewStatus(StopSpec(mo), b.nextId, env.answers[h.symbol]))
          && e.b == PlaceSingle(b, StopSpec(mo), env.answers[h.symbol]))
  {
    var reference := ReferencePrice(Lookup(env.quotes, h.symbol), h.position);
    mo := StopOrder(env, h, if reference.Some? then reference.value else 0.0);
    MakeRefOurs(StampOf(env, h.symbol).day, "protect-" + StampOf(env, h.symbol).second, h.symbol, "STOP");
  }

  /** Live entries stay live, and at most one for this position's own stop appears. */
  lemma EmitAdds(s: Sys, b: Book, env: Env, h: Held, r: string)
    requires ValidBook(b) && LiveAnswers(env)
    ensures ValidBook(Emit(s, b, env, h).b) && Emit(s, b, env, h).b.cancelRequests == b.cancelRequests
    ensures HasEntry(b, r, true) ==> HasEntry(Emit(s, b, env, h).b, r, true)
  {
    var mo := EmitCases(s, b, env, h);
    var e := Emit(s, b, env, h);
    if e.placed {
      var st := NewStatus(StopSpec(mo), b.nextId, env.answers[h.symbol]);
      PlaceSingleValid(b, StopSpec(mo), env.answers[h.symbol]);
      assert st in e.b.entries;
      if HasEntry(b, r, true) {
        var x :| x in b.entries && x.ref == r && IsLive(x.name);
        if r != mo.ref { assert x in e.b.entries; }
      }
    }
  }

  /** Repairing one position changes no order but its own stop. */
  lemma EmitFrame(s: Sys, b: Book, env: Env, h: Held)
    requires Keyed(s)
    ensures var t := Emit(s, b, env, h).s;
      && (forall r :: r in s.mem.orders ==> r in t.mem.orders)
      && (forall r :: r in s.mem.orders && r != StopRef(env, h.symbol) ==> t.mem.orders[r] == s.mem.orders[r])
      && t.mem.blocked == s.mem.blocked && t.mem.fills == s.mem.fills && t.mem.seen == s.mem.seen
  {
    var mo := EmitCases(s, b, env, h);
    if Emit(s, b, env, h).placed {
      ApplyStatusOne(Store(s, mo, None), NewStatus(StopSpec(mo), b.nextId, env.answers[h.symbol]));
    }
  }

  /** Repairing one position keeps the two views equal, but for the ref of a stop that could not be placed. */
  lemma EmitSynced(s: Sys, b: Book, env: Env, h: Held, stray: set<string>)
    requires Keyed(s) && ValidBook(b) && Synced(s, b, stray) && LiveAnswers(env)
    ensures var e := Emit(s, b, env, h);
      && Keyed(e.s) && ValidBook(e.b)
      && Synced(e.s, e.b, if e.placed then stray else stray + {StopRef(env, h.symbol)})
  {
    var mo := EmitCases(s, b, env, h);
    var e := Emit(s, b, env, h);
    if e.placed {
      AcceptedSynced(s, b, mo, env.answers[h.symbol], stray);
    } else if e.s == s {
      SyncedMore(s, b, stray, stray + {StopRef(env, h.symbol)});
    } else {
      RefusedSynced(s, b, mo, stray);
    }
  }

  /** Order `r` works locally for `symbol` with a stop price, and the broker has it live. */
  ghost predicate ProtectedBy(s: Sys, b: Book, symbol: string, r: string) {
    && r in s.mem.orders && s.mem.orders[r].state.IsWorking()
    && s.mem.orders[r].symbol == symbol && s.mem.orders[r].stopPrice.Some?
    && HasEntry(b, r, true)
  }

  ghost predicate Covered(s: Sys, b: Book, symbol: string) {
    exists r :: ProtectedBy(s, b, symbol, r)
  }

  /** A stop ref of this pass is unused, or already belongs to its own symbol; no two symbols share one. */
  ghost predicate NoClash(s: Sys, env: Env) {
    && (forall x :: x in Symbols(env.account) && StopRef(env, x) in s.mem.orders ==>
          s.mem.orders[StopRef(env, x)].symbol == x)
    && (forall x, y :: x in Symbols(env.account) && y in Symbols(env.account) && StopRef(env, x) == StopRef(env, y)
          ==> x == y)
  }

  lemma EmitOrder(s: Sys, b: Book, env: Env, h: Held, stray: set<string>)
    requires Keyed(s) && ValidBook(b) && LiveAnswers(env) && Synced(s, b, stray)
    ensures var e := Emit(s, b, env, h); var r := StopRef(env, h.symbol);
      && (r in e.s.mem.orders ==>
            e.s.mem.orders[r].symbol == h.symbol || (r in s.mem.orders && e.s.mem.orders[r] == s.mem.orders[r]))
      && (e.placed ==> ProtectedBy(e.s, e.b, h.symbol, r))
  {
    var mo := EmitCases(s, b, env, h);
    var e := Emit(s, b, env, h);
    if e.placed {
      AcceptedSynced(s, b, mo, env.answers[h.symbol], stray);
    }
  }

  /** Repairing one position protects it, or not, and unprotects nothing. */
  lemma EmitProtects(s: Sys, b: Book, env: Env, h: Held, stray: set<string>)
    requires Keyed(s) && ValidBook(b) && LiveAnswers(env) && Synced(s, b, stray)
    requires h in env.account && NoClash(s, env)
    ensures NoClash(Emit(s, b, env, h).s, env)
    ensures Emit(s, b, env, h).placed ==> Covered(Emit(s, b, env, h).s, Emit(s, b, env, h).b, h.symbol)
    ensures forall x :: x != h.symbol && Covered(s, b, x) ==> Covered(Emit(s, b, env, h).s, Emit(s, b, env, h).b, x)
  {
    EmitFrame(s, b, env, h);
    EmitOrder(s, b, env, h, stray);
    var e := Emit(s, b, env, h);
    if e.placed { assert ProtectedBy(e.s, e.b, h.symbol, StopRef(env, h.symbol)); }
    assert h.symbol in Symbols(env.account);
    forall x | x != h.symbol && Covered(s, b, x) ensures Covered(e.s, e.b, x) {
      var r :| ProtectedBy(s, b, x, r);
      assert r != StopRef(env, h.symbol);
      EmitAdds(s, b, env, h, r);
      assert ProtectedBy(e.s, e.b, x, r);
    }
    forall x | x in Symbols(env.account) && StopRef(env, x) in e.s.mem.orders
      ensures e.s.mem.orders[StopRef(env, x)].symbol == x
    {
      if x != h.symbol {
        assert StopRef(env, x) != StopRef(env, h.symbol);
        assert StopRef(env, x) in s.mem.orders by {
          var mo := EmitCases(s, b, env, h);
          if e.placed { AcceptedSynced(s, b, mo, env.answers[h.symbol], stray); }
        }
      }
    }
  }

  ghost predicate Consistent(s: Sys, b: Book, env: Env, stray: set<string>) {
    Keyed(s) && ValidBook(b) && NoClash(s, env) && Synced(s, b, stray)
  }

  /** Nothing but orders, rows and the book may have changed, and no order was removed. */
  ghost predicate OnlyOrders(s: Sys, b: Book, t: Sys, b': Book) {
    && b'.cancelRequests == b.cancelRequests && s.mem.orders.Keys <= t.mem.orders.Keys
    && t.mem.fills == s.mem.fills && t.mem.seen == s.mem.seen
  }

  ghost predicate EmitOk(s: Sys, b: Book, env: Env, h: Held, stray: set<string>, e: Emitted) {
    && Consistent(e.s, e.b, env, if e.placed then stray else stray + {StopRef(env, h.symbol)})
    && OnlyOrders(s, b, e.s, e.b) && e.s.mem.blocked == s.mem.blocked
    && (e.placed ==> Covered(e.s, e.b, h.symbol))
    && (forall x :: x != h.symbol && Covered(s, b, x) ==> Covered(e.s, e.b, x))
  }

  lemma EmitIsOk(s: Sys, b: Book, env: Env, h: Held, stray: set<string>)
    requires Consistent(s, b, env, stray) && LiveAnswers(env) && h in env.account
    ensures EmitOk(s, b, env, h, stray, Emit(s, b, env, h))
  {
    EmitSynced(s, b, env, h, stray);
    EmitFrame(s, b, env, h);
    EmitAdds(s, b, env, h, "");
    EmitProtects(s, b, env, h, stray);
  }

  ghost predicate OncePerSymbol(account: seq<Held>) {
    forall i, j :: 0 <= i < j < |account| ==> account[i].symbol != account[j].symbol
  }

  /** Every position is covered, was given a stop, or is unresolved and then blocked. */
  ghost predicate Accounted(covered: set<string>, account: seq<Held>, fix: Repair) {
    && (forall x :: x in fix.unresolved ==> x in fix.s.mem.blocked && x in Symbols(account) && x !in covered)
    && (forall x :: x in fix.placed ==> x in Symbols(account))
    && (forall x :: x in covered || x in fix.placed ==> Covered(fix.s, fix.b, x))
    && (forall h :: h in account ==> h.symbol in covered || h.symbol in fix.placed || h.symbol in fix.unresolved)
  }

  ghost predicate RepairedWell(s: Sys, b: Book, env: Env, covered: set<string>, account: seq<Held>, fix: Repair) {
    && Consistent(fix.s, fix.b, env, Stray(env, fix.unresolved))
    && OnlyOrders(s, b, fix.s, fix.b)
    && Accounted(covered, account, fix)
  }

  lemma CoveredBlock(s: Sys, b: Book, env: Env, symbol: string, now: real, stray: set<string>)
    requires Consistent(s, b, env, stray)
    ensures Consistent(Block(s, symbol, now), b, env, stray)
    ensures forall x :: Covered(s, b, x) ==> Covered(Block(s, symbol, now), b, x)
  {
    forall x | Covered(s, b, x) ensures Covered(Block(s, symbol, now), b, x) {
      var r :| ProtectedBy(s, b, x, r);
      assert ProtectedBy(Block(s, symbol, now), b, x, r);
    }
  }

  lemma StepWell(s: Sys, b: Book, env: Env, covered: set<string>, done: seq<Held>, h: Held, prev: Repair, e: Emitted)
    requires RepairedWell(s, b, env, covered, done, prev)
    requires EmitOk(prev.s, prev.b, env, h, Stray(env, prev.unresolved), e)
    requires h.symbol !in covered && h.symbol !in Symbols(done)
    ensures RepairedWell(s, b, env, covered, done + [h], AfterEmit(prev, env, h, e))
  {
    var fix := AfterEmit(prev, env, h, e);
    if !e.placed {
      assert Stray(env, prev.unresolved + [h.symbol]) == Stray(env, prev.unresolved) + {StopRef(env, h.symbol)};
      CoveredBlock(e.s, e.b, env, h.symbol, StampOf(env, h.symbol).now, Stray(env, fix.unresolved));
    }
    assert Symbols(done + [h]) == Symbols(done) + {h.symbol};
  }

  lemma RepairStepWell(s: Sys, b: Book, env: Env, covered: set<string>, done: seq<Held>, h: Held, prev: Repair)
    requires RepairedWell(s, b, env, covered, done, prev) && LiveAnswers(env) && h in env.account
    requires h.symbol !in Symbols(done)
    ensures RepairedWell(s, b, env, covered, done + [h],
      if h.symbol in covered then prev else RepairedOne(prev, env, h))
  {
    if h.symbol in covered {
      assert Symbols(done + [h]) == Symbols(done) + {h.symbol};
    } else {
      EmitIsOk(prev.s, prev.b, env, h, Stray(env, prev.unresolved));
      StepWell(s, b, env, covered, done, h, prev, Emit(prev.s, prev.b, env, h));
    }
  }

  lemma NewPosition(account: seq<Held>, k: nat)
    requires OncePerSymbol(account) && k < |account|
    ensures account[k].symbol !in Symbols(account[..k]) && account[..k + 1] == account[..k] + [account[k]]
  {
  }

  lemma {:induction false} RepairAllWell(s: Sys, b: Book, env: Env, covered: set<string>, n: nat)
    requires Consistent(s, b, env, {}) && LiveAnswers(env) && OncePerSymbol(env.account) && n <= |env.account|
    requires forall x :: x in covered ==> Covered(s, b, x)
    ensures RepairedWell(s, b, env, covered, env.account[..n], RepairAll(s, b, env, covered, env.account[..n]))
  {
    if n == 0 {
      assert Stray(env, []) == {};
    } else {
      var done := env.account[..n - 1];
      RepairAllWell(s, b, env, covered, n - 1);
      NewPosition(env.account, n - 1);
      assert env.account[..n][..n - 1] == done;
      RepairStepWell(s, b, env, covered, done, env.account[n - 1], RepairAll(s, b, env, covered, done));
    }
  }

  /** With every position covered there is nothing to repair. */
  lemma {:induction false} NothingToRepair(s: Sys, b: Book, env: Env, covered: set<string>, account: seq<Held>)
    requires forall h :: h in account ==> h.symbol in covered
    ensures RepairAll(s, b, env, covered, account) == Repair(s, b, [], [], [])
  {
    if account == [] {
    } else {
      NothingToRepair(s, b, env, covered, account[..|account| - 1]);
    }
  }

  // ------------------------------------------------------------------ naming

  /** An order whose ref parses is in the symbol the ref names. */
  ghost predicate NamesSymbols(s: Sys) {
    forall r :: r in s.mem.orders && ParseRef(r).Some? ==> ParseRef(r).value.symbol == s.mem.orders[r].symbol
  }

  ghost predicate BookNamesSymbols(b: Book) {
    forall e :: e in b.entries && ParseRef(e.ref).Some? ==> ParseRef(e.ref).value.symbol == e.symbol
  }

  /** One position per symbol, and no colon in a symbol or a clock reading. */
  ghost predicate PlainEnv(env: Env) {
    && OncePerSymbol(env.account)
    && forall x :: x in Symbols(env.account) ==>
         ColonFree(x) && ColonFree(StampOf(env, x).day) && ColonFree(StampOf(env, x).second)
  }

  ghost predicate SameFields(was: ManagedOrder, now: ManagedOrder) {
    && now.symbol == was.symbol && now.action == was.action && now.quantity == was.quantity
    && now.stopPrice == was.stopPrice && now.parentRef == was.parentRef
  }

  lemma AppliedKeepsFields(s: Sys, b: Book, now: real, r: string)
    requires Keyed(s) && ValidBook(b) && r in s.mem.orders
    ensures r in Applied(s, b, now).mem.orders && SameFields(s.mem.orders[r], Applied(s, b, now).mem.orders[r])
  {
    if HasEntry(b, r, true) {
      var e :| e in b.entries && e.ref == r && IsLive(e.name);
      LiveView(s, b, now, e);
    } else if HasEntry(b, r, false) {
      var e :| e in b.entries && e.ref == r && IsDone(e.name);
      DoneView(s, b, now, e);
    } else {
      UnmentionedView(s, b, now, r);
    }
  }

  /** Absorbing changes no order's symbol, side, quantity, stop price or parent. */
  lemma RebuiltKeepsFields(s: Sys, b: Book, env: Env, r: string)
    requires Keyed(s) && ValidBook(b) && r in s.mem.orders
    ensures r in Rebuilt(s, b, env).mem.orders && SameFields(s.mem.orders[r], Rebuilt(s, b, env).mem.orders[r])
  {
    AppliedKeepsFields(s, b, env.now, r);
    OnExecutionsKeeps(DropOrphans(Applied(s, b, env.now), Known(b)), env.executions);
  }

  lemma RebuiltNames(s: Sys, b: Book, env: Env)
    requires Keyed(s) && ValidBook(b) && NamesSymbols(s) && BookNamesSymbols(b)
    ensures NamesSymbols(Rebuilt(s, b, env))
  {
    RebuiltSynced(s, b, env);
    AppliedKeys(s, b, env.now);
    OnExecutionsKeeps(DropOrphans(Applied(s, b, env.now), Known(b)), env.executions);
    forall r | r in Rebuilt(s, b, env).mem.orders && ParseRef(r).Some?
      ensures ParseRef(r).value.symbol == Rebuilt(s, b, env).mem.orders[r].symbol
    {
      if r in s.mem.orders {
        RebuiltKeepsFields(s, b, env, r);
      } else {
        var e :| e in b.entries && e.ref == r && IsLive(e.name);
        LiveView(s, b, env.now, e);
      }
    }
  }

  lemma ColonFreeConcat(a: string, b: string)
    requires ColonFree(a) && ColonFree(b)
    ensures ColonFree(a + b)
  {
  }

  lemma NamesGiveNoClash(s: Sys, env: Env)
    requires NamesSymbols(s) && PlainEnv(env)
    ensures NoClash(s, env)
  {
    forall x | x in Symbols(env.account)
      ensures ParseRef(StopRef(env, x)).Some? && ParseRef(StopRef(env, x)).value.symbol == x
    {
      ColonFreeConcat("protect-", StampOf(env, x).second);
      ParseMake(StampOf(env, x).day, "protect-" + StampOf(env, x).second, x, "STOP");
    }
  }

  // ------------------------------------------------------------------ main results

  /** What every run keeps of the local state, and what the broker and the account snapshot are taken to be. */
  ghost predicate WellFormed(s: Sys, b: Book, env: Env) {
    Keyed(s) && ValidBook(b) && NamesSymbols(s) && BookNamesSymbols(b) && PlainEnv(env)
  }

  ghost predicate Sane(s: Sys, b: Book, env: Env) {
    WellFormed(s, b, env) && LiveAnswers(env)
  }

  lemma CoveredAtFirst(s: Sys, b: Book)
    requires Synced(s, b, {})
    ensures forall x :: x in ProtectedSymbols(s) ==> Covered(s, b, x)
  {
    forall x | x in ProtectedSymbols(s) ensures Covered(s, b, x) {
      var r :| r in s.mem.orders && s.mem.orders[r].state.IsWorking() && s.mem.orders[r].stopPrice.Some?
               && s.mem.orders[r].symbol == x;
      assert ProtectedBy(s, b, x, r);
    }
  }

  lemma RepairedIsWell(s: Sys, b: Book, env: Env)
    requires Sane(s, b, env)
    ensures var t := Rebuilt(s, b, env);
            RepairedWell(t, b, env, ProtectedSymbols(t), env.account, Repaired(s, b, env))
  {
    var t := Rebuilt(s, b, env);
    RebuiltSynced(s, b, env);
    RebuiltNames(s, b, env);
    NamesGiveNoClash(t, env);
    CoveredAtFirst(t, b);
    RepairAllWell(t, b, env, ProtectedSymbols(t), |env.account|);
    assert env.account[..|env.account|] == env.account;
  }

  /** The entry that carries the id of a working order of ours is that order's own. */
  lemma IdNamesRef(s: Sys, b: Book, stray: set<string>, q: string, e: Status)
    requires ValidBook(b) && Synced(s, b, stray) && Keyed(s) && e in b.entries
    requires q in s.mem.orders && s.mem.orders[q].state.IsWorking() && q !in stray
    requires s.mem.orders[q].brokerId == Some(e.orderId)
    ensures e.ref == q
  {
    assert HasEntry(b, q, true);
    var f :| f in b.entries && f.ref == q && IsLive(f.name);
    assert f.orderId == e.orderId;
  }

  lemma UncancelledStays(entries: seq<Status>, ids: set<int>, e: Status)
    requires e in entries && e.orderId !in ids
    ensures e in CancelIn(entries, ids)
  {
    var i :| 0 <= i < |entries| && entries[i] == e;
    assert CancelIn(entries, ids)[i] == e;
  }

  /** A live entry survives step 5 unless the order of ours it belongs to is being cancelled. */
  lemma CancelSpares(s: Sys, b: Book, stray: set<string>, stale: set<string>, e: Status)
    requires Keyed(s) && ValidBook(b) && Synced(s, b, stray) && e in b.entries && e.ref !in stale
    requires forall q :: q in stale ==> q in s.mem.orders && s.mem.orders[q].state.IsWorking() && q !in stray
    ensures e in CancelIn(b.entries, BrokerIds(s, stale))
  {
    forall q | q in stale ensures s.mem.orders[q].brokerId != Some(e.orderId) {
      if s.mem.orders[q].brokerId == Some(e.orderId) { IdNamesRef(s, b, stray, q, e); }
    }
    UncancelledStays(b.entries, BrokerIds(s, stale), e);
  }

  /** No stop that could not be placed belongs to a symbol that is no longer held. */
  lemma StaleNotStray(s: Sys, env: Env, unresolved: seq<string>)
    requires NoClash(s, env) && forall x :: x in unresolved ==> x in Symbols(env.account)
    ensures StaleChildren(s, Symbols(env.account)) !! Stray(env, unresolved)
  {
  }

  /**
   * When a pass returns, every open position has an order with a stop price that works locally and is
   * live at the broker, or its placement failed, is reported unresolved, and the symbol is blocked.
   */
  lemma ReconcileProtects(s: Sys, b: Book, env: Env, h: Held)
    requires Sane(s, b, env) && h in env.account
    ensures var o := Reconcile(s, b, env);
            || Covered(o.s, o.b, h.symbol)
            || (h.symbol in o.report.unresolved && h.symbol in o.s.mem.blocked)
  {
    RepairedIsWell(s, b, env);
    var fix := Repaired(s, b, env);
    var o := Reconcile(s, b, env);
    if h.symbol !in fix.unresolved {
      var stray := Stray(env, fix.unresolved);
      var stale := StaleChildren(fix.s, Symbols(env.account));
      StaleNotStray(fix.s, env, fix.unresolved);
      assert Covered(fix.s, fix.b, h.symbol);
      var r :| ProtectedBy(fix.s, fix.b, h.symbol, r);
      assert h.symbol in Symbols(env.account);
      var e :| e in fix.b.entries && e.ref == r && IsLive(e.name);
      assert r !in stray;
      CancelSpares(fix.s, fix.b, stray, stale, e);
      assert ProtectedBy(o.s, o.b, h.symbol, r);
    }
  }

  lemma EmitValid(s: Sys, b: Book, env: Env, h: Held)
    requires ValidBook(b)
    ensures ValidBook(Emit(s, b, env, h).b)
  {
    var mo := EmitCases(s, b, env, h);
    if h.symbol in env.answers { PlaceSingleValid(b, StopSpec(mo), env.answers[h.symbol]); }
  }

  /** A live entry that was not in the book before is this position's stop, and it was placed. */
  lemma EmitAddsOnlyStop(s: Sys, b: Book, env: Env, h: Held, r: string)
    requires ValidBook(b) && HasEntry(Emit(s, b, env, h).b, r, true) && !HasEntry(b, r, true)
    ensures Emit(s, b, env, h).placed && r == StopRef(env, h.symbol)
  {
    var mo := EmitCases(s, b, env, h);
    if Emit(s, b, env, h).placed { PlaceSingleValid(b, StopSpec(mo), env.answers[h.symbol]); }
  }

  lemma {:induction false} RepairAllValid(s: Sys, b: Book, env: Env, covered: set<string>, account: seq<Held>)
    requires ValidBook(b)
    ensures ValidBook(RepairAll(s, b, env, covered, account).b)
  {
    if account == [] {
    } else {
      var n := |account| - 1;
      var prev := RepairAll(s, b, env, covered, account[..n]);
      RepairAllValid(s, b, env, covered, account[..n]);
      EmitValid(prev.s, prev.b, env, account[n]);
    }
  }

  /** A live entry that was not in the book before was placed in this pass, as some position's stop. */
  lemma {:induction false} NewLiveIsStop(s: Sys, b: Book, env: Env, covered: set<string>, account: seq<Held>, r: string)
    requires ValidBook(b) && HasEntry(RepairAll(s, b, env, covered, account).b, r, true) && !HasEntry(b, r, true)
    ensures r in Stray(env, RepairAll(s, b, env, covered, account).placed)
  {
    if account == [] {
    } else {
      var n := |account| - 1;
      var h, prev := account[n], RepairAll(s, b, env, covered, account[..n]);
      RepairAllValid(s, b, env, covered, account[..n]);
      if HasEntry(prev.b, r, true) {
        NewLiveIsStop(s, b, env, covered, account[..n], r);
        PlacedGrow(env, prev, h, Emit(prev.s, prev.b, env, h), r);
      } else {
        EmitAddsOnlyStop(prev.s, prev.b, env, h, r);
      }
    }
  }

  lemma PlacedGrow(env: Env, prev: Repair, h: Held, e: Emitted, r: string)
    requires r in Stray(env, prev.placed)
    ensures r in Stray(env, AfterEmit(prev, env, h, e).placed)
  {
    var x :| x in prev.placed && StopRef(env, x) == r;
    assert x in prev.placed + [h.symbol];
  }

  /**
   * When a pass returns, an order works locally only if the broker had just reported it live, or it is
   * a stop this pass wrote for a position it found unprotected.
   */
  lemma WorkingIsReported(s: Sys, b: Book, env: Env, r: string)
    requires Sane(s, b, env)
    requires var o := Reconcile(s, b, env); r in o.s.mem.orders && o.s.mem.orders[r].state.IsWorking()
    ensures var o := Reconcile(s, b, env);
            HasEntry(b, r, true) || r in Stray(env, o.report.placed) || r in Stray(env, o.report.unresolved)
  {
    RepairedIsWell(s, b, env);
    var t := Rebuilt(s, b, env);
    var fix := Repaired(s, b, env);
    if r !in Stray(env, fix.unresolved) {
      assert HasEntry(fix.b, r, true);
      if !HasEntry(b, r, true) { NewLiveIsStop(t, b, env, ProtectedSymbols(t), env.account, r); }
    }
  }

  // ------------------------------------------------------------------ what a pass does to the broker's book

  lemma EmitSpares(s: Sys, b: Book, env: Env, h: Held, e: Status)
    requires ValidBook(b) && e in b.entries && !IsOurs(e.ref)
    ensures e in Emit(s, b, env, h).b.entries
  {
    var mo := EmitCases(s, b, env, h);
    if Emit(s, b, env, h).placed { PlaceSingleValid(b, StopSpec(mo), env.answers[h.symbol]); }
  }

  lemma StepSpares(prev: Repair, env: Env, h: Held, e: Status)
    requires ValidBook(prev.b) && e in prev.b.entries && !IsOurs(e.ref)
    ensures ValidBook(RepairedOne(prev, env, h).b) && e in RepairedOne(prev, env, h).b.entries
  {
    EmitValid(prev.s, prev.b, env, h);
    EmitSpares(prev.s, prev.b, env, h, e);
  }

  lemma RepairSpares(s: Sys, b: Book, env: Env, covered: set<string>, e: Status)
    requires ValidBook(b) && e in b.entries && !IsOurs(e.ref)
    ensures e in RepairAll(s, b, env, covered, env.account).b.entries
  {
    var P := (fix: Repair) => ValidBook(fix.b) && e in fix.b.entries;
    forall prev: Repair, h | P(prev) ensures P(RepairedOne(prev, env, h)) {
      StepSpares(prev, env, h, e);
    }
    RepairInduction(s, b, env, covered, |env.account|, P);
    assert env.account[..|env.account|] == env.account;
  }

  /** A pass never touches an order in the account that is not ours: a manual order stays as it is. */
  lemma OthersUntouched(s: Sys, b: Book, env: Env, e: Status)
    requires Sane(s, b, env) && e in b.entries && !IsOurs(e.ref)
    ensures e in Reconcile(s, b, env).b.entries
  {
    RepairedIsWell(s, b, env);
    var t, fix := Rebuilt(s, b, env), Repaired(s, b, env);
    RepairSpares(t, b, env, ProtectedSymbols(t), e);
    StaleNotStray(fix.s, env, fix.unresolved);
    CancelSpares(fix.s, fix.b, Stray(env, fix.unresolved), StaleChildren(fix.s, Symbols(env.account)), e);
  }

  lemma CancelledIsGone(entries: seq<Status>, ids: set<int>, e: Status)
    requires IsLive(e.name) && e.orderId in ids
    ensures e !in CancelIn(entries, ids)
  {
    forall i | 0 <= i < |entries| ensures CancelIn(entries, ids)[i] != e {
    }
  }

  /**
   * Of our live orders a pass cancels exactly the working children, known under an id, of symbols that
   * are no longer held.
   */
  lemma CancelsExactlyStale(s: Sys, b: Book, env: Env, e: Status)
    requires Sane(s, b, env) && e in Repaired(s, b, env).b.entries && IsLive(e.name) && IsOurs(e.ref)
    requires e.ref !in Stray(env, Repaired(s, b, env).unresolved)
    ensures e in Reconcile(s, b, env).b.entries
       <==> e.ref !in StaleChildren(Repaired(s, b, env).s, Symbols(env.account))
  {
    RepairedIsWell(s, b, env);
    var fix := Repaired(s, b, env);
    var stale := StaleChildren(fix.s, Symbols(env.account));
    StaleNotStray(fix.s, env, fix.unresolved);
    if e.ref in stale {
      assert fix.s.mem.orders[e.ref].brokerId == Some(e.orderId);
      CancelledIsGone(fix.b.entries, BrokerIds(fix.s, stale), e);
    } else {
      CancelSpares(fix.s, fix.b, Stray(env, fix.unresolved), stale, e);
    }
  }

  /**
   * A protective stop closes the whole position, on the side that loses money: within half a cent of
   * three percent away from the reference price, so strictly beyond it from 17 cents on.
   */
  lemma StopLimitsLoss(env: Env, h: Held, reference: real)
    ensures var mo := StopOrder(env, h, reference);
      && mo.quantity == Abs(h.position.quantity) && mo.stopPrice.Some?
      && (h.position.IsLong() ==>
            mo.action == "SELL" && Abs(mo.stopPrice.value - (reference - 0.03 * reference)) <= 0.005)
      && (!h.position.IsLong() ==>
            mo.action == "BUY" && Abs(mo.stopPrice.value - (reference + 0.03 * reference)) <= 0.005)
      && (reference >= 0.17 ==>
            if h.position.IsLong() then mo.stopPrice.value < reference else mo.stopPrice.value > reference)
  {
    CentError(reference * if h.position.IsLong() then 0.97 else 1.03);
  }

  lemma CentError(x: real)
    ensures -0.005 <= RoundCents(x) - x <= 0.005
  {
  }

  // ------------------------------------------------------------------ convergence

  /** The next pass sees the same positions and no execution the first did not. */
  ghost predicate Unchanged(first: Env, next: Env) {
    && Symbols(next.account) == Symbols(first.account)
    && forall e :: e in next.executions ==> exists f :: f in first.executions && f.execId == e.execId
  }

  lemma {:induction false} SeenAfter(s: Sys, es: seq<Execution>)
    ensures forall f :: f in es ==> f.execId in OnExecutions(s, es).mem.seen
    ensures s.mem.seen <= OnExecutions(s, es).mem.seen
  {
    if es == [] {
    } else {
      SeenAfter(s, es[..|es| - 1]);
      assert es == es[..|es| - 1] + [es[|es| - 1]];
    }
  }

  lemma {:induction false} SeenAddsNothing(s: Sys, es: seq<Execution>)
    requires forall e :: e in es ==> e.execId in s.mem.seen
    ensures OnExecutions(s, es) == s
  {
    if es == [] {
    } else {
      SeenAddsNothing(s, es[..|es| - 1]);
    }
  }

  lemma {:induction false} NothingAdopted(s: Sys, open: seq<Status>)
    requires forall e :: e in open && IsOurs(e.ref) ==> e.ref in s.mem.orders
    requires Keyed(s) && DistinctRefs(open)
    ensures AdoptedRefs(s, open) == []
  {
    if open == [] {
    } else {
      var n := |open| - 1;
      NothingAdopted(s, open[..n]);
      AbsorbOpenExactly(s, open[..n]);
      if open[n].ref in s.mem.orders {
        if e: Status :| e in Ours(open[..n]) && e.ref == open[n].ref {}
      }
    }
  }

  lemma CancelValid(b: Book, ids: set<int>, requests: nat)
    requires ValidBook(b)
    ensures ValidBook(b.(entries := CancelIn(b.entries, ids), cancelRequests := requests))
  {
    var after := CancelIn(b.entries, ids);
    forall i | 0 <= i < |after|
      ensures after[i].ref == b.entries[i].ref && after[i].orderId == b.entries[i].orderId
    {}
  }

  /** What is still live after step 5 was live before and not asked to be cancelled. */
  lemma CancelledLive(entries: seq<Status>, ids: set<int>, e: Status)
    requires e in CancelIn(entries, ids) && IsLive(e.name)
    ensures e in entries && e.orderId !in ids
  {
    var i :| 0 <= i < |entries| && CancelIn(entries, ids)[i] == e;
    assert entries[i] in entries;
  }

  /** An order that was live is still listed after step 5, live or cancelled. */
  lemma CancelledListed(b: Book, b': Book, ids: set<int>, r: string)
    requires HasEntry(b, r, true) && b'.entries == CancelIn(b.entries, ids)
    ensures HasEntry(b', r, true) || HasEntry(b', r, false)
  {
    var e :| e in b.entries && e.ref == r && IsLive(e.name);
    var i :| 0 <= i < |b.entries| && b.entries[i] == e;
    assert b'.entries[i] in b'.entries;
  }

  lemma {:induction false} OpenKeepsFills(s: Sys, open: seq<Status>)
    ensures AbsorbOpen(s, open).mem.fills == s.mem.fills && AbsorbOpen(s, open).mem.seen == s.mem.seen
  {
    if open == [] {
    } else {
      OpenKeepsFills(s, open[..|open| - 1]);
    }
  }

  lemma {:induction false} CompletedKeepsFills(s: Sys, completed: seq<Status>)
    ensures AbsorbCompleted(s, completed).mem.fills == s.mem.fills
    ensures AbsorbCompleted(s, completed).mem.seen == s.mem.seen
  {
    if completed == [] {
    } else {
      CompletedKeepsFills(s, completed[..|completed| - 1]);
    }
  }

  lemma DroppedKeepsFills(s: Sys, b: Book, env: Env)
    ensures DropOrphans(Applied(s, b, env.now), Known(b)).mem.fills == s.mem.fills
    ensures DropOrphans(Applied(s, b, env.now), Known(b)).mem.seen == s.mem.seen
  {
    OpenKeepsFills(Unblock(s, env.now), OpenOrders(b.entries));
    CompletedKeepsFills(AbsorbOpen(Unblock(s, env.now), OpenOrders(b.entries)), CompletedOrders(b.entries));
  }

  /** Facts the first pass leaves behind when it could place every stop it needed. */
  ghost predicate Settled(s: Sys, b: Book, before: Book, env: Env) {
    var stale := StaleChildren(s, Symbols(env.account));
    && Keyed(s) && ValidBook(before) && Synced(s, before, {})
    && b == before.(entries := CancelIn(before.entries, BrokerIds(s, stale)), cancelRequests := b.cancelRequests)
    && (forall x :: x in Symbols(env.account) ==> Covered(s, b, x))
    && (forall f :: f in env.executions ==> f.execId in s.mem.seen)
  }

  lemma FirstPassSettles(s: Sys, b: Book, env: Env)
    requires Sane(s, b, env) && Reconcile(s, b, env).report.unresolved == []
    ensures Settled(Reconcile(s, b, env).s, Reconcile(s, b, env).b, Repaired(s, b, env).b, env)
  {
    RepairedIsWell(s, b, env);
    assert Stray(env, []) == {};
    forall x | x in Symbols(env.account) ensures Covered(Reconcile(s, b, env).s, Reconcile(s, b, env).b, x) {
      var h :| h in env.account && h.symbol == x;
      ReconcileProtects(s, b, env, h);
    }
    SeenAfter(DropOrphans(Applied(s, b, env.now), Known(b)), env.executions);
  }

  lemma SettledAdoptsNothing(s: Sys, b: Book, before: Book, env: Env, next: Env)
    requires Settled(s, b, before, env)
    ensures AdoptedRefs(Unblock(s, next.now), OpenOrders(b.entries)) == []
  {
    CancelValid(before, BrokerIds(s, StaleChildren(s, Symbols(env.account))), b.cancelRequests);
    FilterDistinctRefs((e: Status) => IsLive(e.name), b.entries);
    forall e | e in OpenOrders(b.entries) && IsOurs(e.ref) ensures e.ref in s.mem.orders {
      CancelledLive(before.entries, BrokerIds(s, StaleChildren(s, Symbols(env.account))), e);
    }
    NothingAdopted(Unblock(s, next.now), OpenOrders(b.entries));
  }

  lemma SettledOrphansNothing(s: Sys, b: Book, before: Book, env: Env, next: Env)
    requires Settled(s, b, before, env)
    ensures OrphanRefs(Applied(s, b, next.now), Known(b)) == {}
  {
    var ids := BrokerIds(s, StaleChildren(s, Symbols(env.account)));
    CancelValid(before, ids, b.cancelRequests);
    AppliedKeys(s, b, next.now);
    var a := Applied(s, b, next.now);
    forall r | r in a.mem.orders && a.mem.orders[r].state.IsWorking() ensures r in Known(b) {
      OurRefNonEmpty(r);
      KnownExactly(b, r);
      if !HasEntry(b, r, true) && !HasEntry(b, r, false) {
        UnmentionedView(s, b, next.now, r);
        assert HasEntry(before, r, true);
        CancelledListed(before, b, ids, r);
      }
    }
  }

  lemma SettledProtected(s: Sys, b: Book, before: Book, env: Env, next: Env, x: string)
    requires Settled(s, b, before, env) && x in Symbols(env.account)
    ensures x in ProtectedSymbols(Rebuilt(s, b, next))
  {
    CancelValid(before, BrokerIds(s, StaleChildren(s, Symbols(env.account))), b.cancelRequests);
    RebuiltSynced(s, b, next);
    assert Covered(s, b, x);
    var r :| ProtectedBy(s, b, x, r);
    var e :| e in b.entries && e.ref == r && IsLive(e.name);
    RebuiltKeepsFields(s, b, next, r);
    assert Rebuilt(s, b, next).mem.orders[r].state.IsWorking();
  }

  lemma SettledCancelsNothing(s: Sys, b: Book, before: Book, env: Env, next: Env)
    requires Settled(s, b, before, env) && Unchanged(env, next)
    ensures StaleChildren(Rebuilt(s, b, next), Symbols(next.account)) == {}
  {
    var stale := StaleChildren(s, Symbols(env.account));
    var t := Rebuilt(s, b, next);
    CancelValid(before, BrokerIds(s, stale), b.cancelRequests);
    RebuiltSynced(s, b, next);
    if r :| r in StaleChildren(t, Symbols(next.account)) {
      assert HasEntry(b, r, true);
      var e :| e in b.entries && e.ref == r && IsLive(e.name);
      CancelledLive(before.entries, BrokerIds(s, stale), e);
      assert r in s.mem.orders && s.mem.orders[r].brokerId == Some(e.orderId);
      assert r !in stale;
      RebuiltKeepsFields(s, b, next, r);
      assert false;
    }
  }

  lemma CancelNone(entries: seq<Status>)
    ensures CancelIn(entries, {}) == entries
  {
  }

  /**
   * Reconciliation converges: when the first pass placed every stop it needed and nothing changed at
   * the broker, a second pass adopts nothing, orphans nothing, finds every position protected, sends
   * no order and no cancel, leaves the broker's book as it is and adds no fill.
   */
  lemma SecondPassIsIdle(s: Sys, b: Book, env: Env, next: Env)
    requires Sane(s, b, env) && Unchanged(env, next)
    requires Reconcile(s, b, env).report.unresolved == []
    ensures var o := Reconcile(s, b, env); var o' := Reconcile(o.s, o.b, next);
            && o'.report.adopted == [] && o'.report.orphanedLocal == {} && o'.report.unprotected == []
            && o'.report.placed == [] && o'.report.unresolved == []
            && o'.b == o.b && o'.s.mem.fills == o.s.mem.fills
  {
    var o := Reconcile(s, b, env);
    var before := Repaired(s, b, env).b;
    FirstPassSettles(s, b, env);
    SettledAdoptsNothing(o.s, o.b, before, env, next);
    SettledOrphansNothing(o.s, o.b, before, env, next);
    var t := Rebuilt(o.s, o.b, next);
    forall h | h in next.account ensures h.symbol in ProtectedSymbols(t) {
      assert h.symbol in Symbols(next.account);
      SettledProtected(o.s, o.b, before, env, next, h.symbol);
    }
    NothingToRepair(t, o.b, next, ProtectedSymbols(t), next.account);
    SettledCancelsNothing(o.s, o.b, before, env, next);
    assert BrokerIds(t, {}) == {};
    CancelNone(o.b.entries);
    DroppedKeepsFills(o.s, o.b, next);
    var d := DropOrphans(Applied(o.s, o.b, next.now), Known(o.b));
    forall e | e in next.executions ensures e.execId in d.mem.seen {
      var f :| f in env.executions && f.execId == e.execId;
    }
    SeenAddsNothing(d, next.executions);
  }
}
