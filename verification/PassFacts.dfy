/** What a reconciliation pass makes of each order the process knows, and of those only the broker knows. */
module PassFacts {
  import opened Refs
  import opened OrderModel
  import opened Reconciliation
  import opened ReconcileProofs
  import opened ReconcileLimits
  import opened Statuses

  /** The broker lists an order as open or as completed under these names. */
  predicate IsListed(name: string) { IsListedOpen(name) || name == "Filled" || name == "Cancelled" }

  predicate IsListedOpen(name: string) { name == "Submitted" || name == "PreSubmitted" || name == "PendingSubmit" }

  /** None of the stops this pass may place. */
  ghost predicate NotItsStop(env: Env, r: string) {
    forall x :: x in Symbols(env.account) ==> StopRef(env, x) != r
  }

  lemma UpdatedIs(mo: ManagedOrder, e: Status)
    ensures StateIs(mo.state, e, Updated(mo, e).state) && TakesOver(mo, e, Updated(mo, e))
  {
  }

  lemma AdoptedIs(e: Status)
    ensures StateIs(Pending, e, Updated(Adopted(e), e).state) && MadeUp(e, Updated(Adopted(e), e))
  {
  }

  /** Steps 4 and 5 leave every order alone but their own stops. */
  lemma RebuiltStays(s: Sys, b: Book, env: Env, r: string)
    requires WellFormed(s, b, env) && r in Rebuilt(s, b, env).mem.orders && NotItsStop(env, r)
    ensures r in Reconcile(s, b, env).s.mem.orders
    ensures Reconcile(s, b, env).s.mem.orders[r] == Rebuilt(s, b, env).mem.orders[r]
  {
    var t, n := Rebuilt(s, b, env), |env.account|;
    assert env.account[..n] == env.account;
    RebuiltSynced(s, b, env);
    RebuiltNames(s, b, env);
    NamesGiveNoClash(t, env);
    RepairSame(t, b, env, ProtectedSymbols(t), n, t.mem.orders[r].symbol, r);
  }

  lemma RebuiltOf(s: Sys, b: Book, env: Env, r: string)
    requires Keyed(s) && ValidBook(b) && r in Applied(s, b, env.now).mem.orders
    ensures r in Rebuilt(s, b, env).mem.orders
    ensures var a := Applied(s, b, env.now).mem.orders[r];
      Rebuilt(s, b, env).mem.orders[r] == if a.state.IsWorking() && r !in Known(b) then a.(state := Cancelled) else a
  {
    AppliedKeys(s, b, env.now);
    OnExecutionsKeeps(DropOrphans(Applied(s, b, env.now), Known(b)), env.executions);
  }

  lemma ListedIs(b: Book, e: Status)
    requires e in b.entries && IsListed(e.name) && e.ref != ""
    ensures IsLive(e.name) || IsDone(e.name)
    ensures e.ref in Known(b)
  {
    KnownExactly(b, e.ref);
    assert HasEntry(b, e.ref, IsLive(e.name));
  }

  /**
   * An order the broker lists takes over what the listing says, whatever the process thought of it: an order
   * that filled or was cancelled while nobody listened ends the pass as filled or cancelled.
   */
  lemma ListedAfterPass(s: Sys, b: Book, env: Env, e: Status)
    requires WellFormed(s, b, env) && e in b.entries && IsListed(e.name)
    requires e.ref in s.mem.orders && NotItsStop(env, e.ref)
    ensures e.ref in Reconcile(s, b, env).s.mem.orders
    ensures var was, now := s.mem.orders[e.ref], Reconcile(s, b, env).s.mem.orders[e.ref];
      StateIs(was.state, e, now.state) && TakesOver(was, e, now)
  {
    OurRefNonEmpty(e.ref);
    ListedIs(b, e);
    if IsLive(e.name) { LiveView(s, b, env.now, e); } else { DoneView(s, b, env.now, e); }
    UpdatedIs(s.mem.orders[e.ref], e);
    RebuiltOf(s, b, env, e.ref);
    RebuiltStays(s, b, env, e.ref);
  }

  /** One that it does not list never reached it, and is cancelled if it was thought to work. */
  lemma UnlistedAfterPass(s: Sys, b: Book, env: Env, r: string)
    requires WellFormed(s, b, env) && r in s.mem.orders && NotItsStop(env, r)
    requires forall e :: e in b.entries && e.ref == r ==> !IsListed(e.name)
    ensures r in Reconcile(s, b, env).s.mem.orders
    ensures var was := s.mem.orders[r];
      Reconcile(s, b, env).s.mem.orders[r] == if was.state.IsWorking() then was.(state := Cancelled) else was
  {
    OurRefNonEmpty(r);
    KnownExactly(b, r);
    UnmentionedView(s, b, env.now, r);
    RebuiltOf(s, b, env, r);
    RebuiltStays(s, b, env, r);
  }

  /** An open one of ours that the process had not heard of is adopted as listed. */
  lemma AdoptedAfterPass(s: Sys, b: Book, env: Env, e: Status)
    requires WellFormed(s, b, env) && e in b.entries && IsListedOpen(e.name) && "ait:" <= e.ref
    requires e.ref !in s.mem.orders && NotItsStop(env, e.ref)
    ensures e.ref in Reconcile(s, b, env).s.mem.orders
    ensures var now := Reconcile(s, b, env).s.mem.orders[e.ref];
      StateIs(Pending, e, now.state) && MadeUp(e, now)
  {
    OurRefNonEmpty(e.ref);
    ListedIs(b, e);
    LiveView(s, b, env.now, e);
    AdoptedIs(e);
    RebuiltOf(s, b, env, e.ref);
    RebuiltStays(s, b, env, e.ref);
  }

  /** And no order comes from anywhere else. */
  lemma NothingElseAfterPass(s: Sys, b: Book, env: Env, r: string)
    requires WellFormed(s, b, env) && r in Reconcile(s, b, env).s.mem.orders && NotItsStop(env, r)
    ensures r in s.mem.orders || exists e :: e in b.entries && e.ref == r && IsListedOpen(e.name)
  {
    var t, n := Rebuilt(s, b, env), |env.account|;
    assert env.account[..n] == env.account;
    RebuiltSynced(s, b, env);
    RebuiltNames(s, b, env);
    NamesGiveNoClash(t, env);
    AppliedKeys(s, b, env.now);
    RepairSame(t, b, env, ProtectedSymbols(t), n, Reconcile(s, b, env).s.mem.orders[r].symbol, r);
    if r !in s.mem.orders { assert HasEntry(b, r, true); }
  }

  // ------------------------------------------------------------------ what the report says

  lemma NotYetAbsorbed(s: Sys, open: seq<Status>, n: nat)
    requires Keyed(s) && DistinctRefs(open) && n < |open|
    ensures open[n].ref in AbsorbOpen(s, open[..n]).mem.orders <==> open[n].ref in s.mem.orders
  {
    AbsorbOpenExactly(s, open[..n]);
    forall e | e in Ours(open[..n]) ensures e.ref != open[n].ref {
      assert e in open[..n];
      var i :| 0 <= i < n && open[i] == e;
    }
  }

  ghost predicate RefIn(open: seq<Status>, r: string) {
    exists e :: e in open && e.ref == r
  }

  lemma RefInMore(open: seq<Status>, n: nat, r: string)
    requires n == |open| - 1
    ensures RefIn(open, r) <==> RefIn(open[..n], r) || open[n].ref == r
  {
    assert open == open[..n] + [open[n]];
    if open[n].ref == r { assert open[n] in open; }
  }

  lemma {:induction false} AdoptedExactly(s: Sys, open: seq<Status>, r: string)
    requires Keyed(s) && DistinctRefs(open)
    ensures r in AdoptedRefs(s, open) <==> r !in s.mem.orders && IsOurs(r) && RefIn(open, r)
  {
    if open == [] {
    } else {
      var n := |open| - 1;
      AdoptedExactly(s, open[..n], r);
      NotYetAbsorbed(s, open, n);
      RefInMore(open, n, r);
    }
  }

  lemma OpenRefs(b: Book, r: string)
    ensures RefIn(OpenOrders(b.entries), r) <==> exists e :: e in b.entries && e.ref == r && IsListedOpen(e.name)
  {
  }

  /** Reported as adopted are the open orders of ours that were not known. */
  lemma AdoptedSays(s: Sys, b: Book, env: Env, r: string)
    requires Keyed(s) && ValidBook(b)
    ensures r in Reconcile(s, b, env).report.adopted
       <==> r !in s.mem.orders && "ait:" <= r && exists e :: e in b.entries && e.ref == r && IsListedOpen(e.name)
  {
    FilterDistinctRefs((e: Status) => IsLive(e.name), b.entries);
    AdoptedExactly(Unblock(s, env.now), OpenOrders(b.entries), r);
    OpenRefs(b, r);
  }

  /** Reported as orphaned are the working orders that the broker does not list. */
  lemma OrphanedSays(s: Sys, b: Book, env: Env, r: string)
    requires Keyed(s) && ValidBook(b)
    ensures r in Reconcile(s, b, env).report.orphanedLocal
       <==> r in s.mem.orders && s.mem.orders[r].state.IsWorking()
            && forall e :: e in b.entries && e.ref == r ==> !IsListed(e.name)
  {
    AppliedKeys(s, b, env.now);
    if r in Applied(s, b, env.now).mem.orders {
      OurRefNonEmpty(r);
      KnownExactly(b, r);
      if !HasEntry(b, r, true) && !HasEntry(b, r, false) {
        UnmentionedView(s, b, env.now, r);
      } else {
        var e :| e in b.entries && e.ref == r && (IsLive(e.name) || IsDone(e.name));
        assert IsListed(e.name);
      }
    }
  }

  lemma {:induction false} RepairsUncovered(s: Sys, b: Book, env: Env, covered: set<string>, account: seq<Held>,
      x: string)
    ensures x in RepairAll(s, b, env, covered, account).unprotected <==> x in Symbols(account) && x !in covered
  {
    if account == [] {
    } else {
      var n := |account| - 1;
      RepairsUncovered(s, b, env, covered, account[..n], x);
      assert account == account[..n] + [account[n]];
    }
  }

  /** Reported as unprotected are the held symbols without a working order that has a stop price. */
  lemma UnprotectedSays(s: Sys, b: Book, env: Env, x: string)
    ensures x in Reconcile(s, b, env).report.unprotected
       <==> x in Symbols(env.account) && x !in ProtectedSymbols(Rebuilt(s, b, env))
  {
    RepairsUncovered(Rebuilt(s, b, env), b, env, ProtectedSymbols(Rebuilt(s, b, env)), env.account, x);
  }
}
