/** What one status from the broker makes of an order, name by name. */
module Statuses {
  import opened Common
  import opened OrderModel

  predicate SaysPending(name: string) { name == "PendingSubmit" || name == "ApiPending" }

  predicate SaysOpen(name: string) { name == "PendingCancel" || name == "PreSubmitted" || name == "Submitted" }

  predicate SaysCancelled(name: string) { name == "ApiCancelled" || name == "Cancelled" }

  /** A name that settles nothing. */
  predicate SaysNothing(name: string) {
    !SaysPending(name) && !SaysOpen(name) && !SaysCancelled(name) && name != "Filled" && name != "Inactive"
  }

  /** A status is for an order the process knows, or for one of ours. */
  predicate Concerns(s: Sys, st: Status) { st.ref in s.mem.orders || "ait:" <= st.ref }

  /** The state an order had before; one that only the broker knows starts pending. */
  function StateBefore(s: Sys, ref: string): OrderState {
    if ref in s.mem.orders then s.mem.orders[ref].state else Pending
  }

  /** Filled and cancelled are final whatever was filled; the others give way to a partial fill. */
  ghost predicate StateIs(was: OrderState, st: Status, now: OrderState) {
    var kept := SaysNothing(st.name);
    && (now.Filled? <==> st.name == "Filled" || (kept && was.Filled?))
    && (now.Cancelled? <==> SaysCancelled(st.name) || (kept && was.Cancelled?))
    && (now.Partial? <==> if st.filled > 0.0 then !now.Filled? && !now.Cancelled? else kept && was.Partial?)
    && (now.Rejected? <==> st.filled <= 0.0 && (st.name == "Inactive" || (kept && was.Rejected?)))
    && (now.Submitted? <==> st.filled <= 0.0 && (SaysOpen(st.name) || (kept && was.Submitted?)))
    && (now.Pending? <==> st.filled <= 0.0 && (SaysPending(st.name) || (kept && was.Pending?)))
  }

  /** The text a state is stored under. */
  ghost predicate StoredAs(state: OrderState, text: string) {
    && (state.Pending? <==> text == "PENDING") && (state.Submitted? <==> text == "SUBMITTED")
    && (state.Partial? <==> text == "PARTIAL") && (state.Filled? <==> text == "FILLED")
    && (state.Cancelled? <==> text == "CANCELLED") && (state.Rejected? <==> text == "REJECTED")
  }

  /** The broker's numbers replace the old ones, except that a missing or zero id or price keeps the old. */
  ghost predicate TakesOver(was: ManagedOrder, st: Status, now: ManagedOrder) {
    && now.filled == st.filled
    && now.brokerId == (if st.orderId != 0 then Some(st.orderId) else was.brokerId)
    && now.avgFill == (if st.avgFill.Some? && st.avgFill.value != 0.0 then st.avgFill else was.avgFill)
    && now.ref == was.ref && now.symbol == was.symbol && now.action == was.action && now.quantity == was.quantity
    && now.limitPrice == was.limitPrice && now.stopPrice == was.stopPrice && now.targetPrice == was.targetPrice
    && now.parentRef == was.parentRef && now.cycle == was.cycle && now.rationale == was.rationale
  }

  /** What is made up for an order of ours that only the broker knows: its whole quantity, and no prices or parent. */
  ghost predicate MadeUp(st: Status, now: ManagedOrder) {
    && now.ref == st.ref && now.symbol == st.symbol && now.action == st.action
    && now.quantity == st.filled + st.remaining && now.filled == st.filled
    && now.limitPrice == None && now.stopPrice == None && now.targetPrice == None && now.parentRef == None
    && now.brokerId == (if st.orderId != 0 then Some(st.orderId) else None)
    && now.avgFill == (if st.avgFill.Some? && st.avgFill.value != 0.0 then st.avgFill else None)
  }

  /** The order after a status for it. */
  lemma OrderAfterStatus(s: Sys, st: Status)
    requires Mirror(s) && Concerns(s, st)
    ensures st.ref in ApplyStatus(s, st).mem.orders
    ensures var now := ApplyStatus(s, st).mem.orders[st.ref];
      && StateIs(StateBefore(s, st.ref), st, now.state)
      && (st.ref in s.mem.orders ==> TakesOver(s.mem.orders[st.ref], st, now))
      && (st.ref !in s.mem.orders ==> MadeUp(st, now))
  {
  }

  /** Its row says the same, under the perm id given now or before. */
  lemma RowAfterStatus(s: Sys, st: Status)
    requires Mirror(s) && Concerns(s, st)
    ensures var t := ApplyStatus(s, st);
      && st.ref in t.mem.orders && st.ref in t.disk.rows
      && StoredAs(t.mem.orders[st.ref].state, t.disk.rows[st.ref].state)
      && t.disk.rows[st.ref].filled == Some(st.filled)
      && t.disk.rows[st.ref].brokerId == t.mem.orders[st.ref].brokerId
      && t.disk.rows[st.ref].permId
         == if st.permId.Some? && st.permId.value != 0 then st.permId else Lookup(s.mem.perms, st.ref)
  {
    ApplyStatusMirror(s, st);
  }

  ghost predicate SameElsewhere<V>(was: map<string, V>, now: map<string, V>, ref: string) {
    forall r :: r != ref ==> Lookup(now, r) == Lookup(was, r)
  }

  /** Nothing else changes, and a status for nobody's order changes nothing. */
  lemma OthersAfterStatus(s: Sys, st: Status)
    requires Mirror(s)
    ensures !Concerns(s, st) ==> ApplyStatus(s, st) == s
    ensures var t := ApplyStatus(s, st);
      && SameElsewhere(s.mem.orders, t.mem.orders, st.ref) && SameElsewhere(s.disk.rows, t.disk.rows, st.ref)
      && SameElsewhere(s.mem.perms, t.mem.perms, st.ref)
      && t.mem.blocked == s.mem.blocked && t.mem.seen == s.mem.seen && t.mem.fills == s.mem.fills
      && t.disk.fills == s.disk.fills
  {
  }

  /**
   * A row can be rebuilt exactly when its state text is one of the six; the order is then the row field by
   * field, with nothing filled where the row says nothing of it.
   */
  lemma RowRebuilds(ref: string, row: Row)
    ensures FromRow(ref, row).Some?
       <==> row.state == "PENDING" || row.state == "SUBMITTED" || row.state == "PARTIAL" || row.state == "FILLED"
            || row.state == "CANCELLED" || row.state == "REJECTED"
    ensures FromRow(ref, row).Some? ==>
      var mo := FromRow(ref, row).value;
      && mo.ref == ref && StoredAs(mo.state, row.state) && mo.symbol == row.symbol && mo.action == row.action
      && mo.quantity == row.quantity && mo.limitPrice == row.limitPrice && mo.stopPrice == row.stopPrice
      && mo.targetPrice == row.targetPrice && mo.brokerId == row.brokerId && mo.parentRef == row.parentRef
      && (row.filled.Some? ==> mo.filled == row.filled.value) && (row.filled.None? ==> mo.filled == 0.0)
      && mo.avgFill == row.avgFill && mo.cycle == row.cycle && mo.rationale == row.rationale
  {
  }

  // ------------------------------------------------------------------ over runs of statuses

  /** A status whose name settles the state. */
  predicate Settles(st: Status) { !SaysNothing(st.name) }

  /** In memory and on disk, the order is filled or cancelled exactly when `name` says so. */
  ghost predicate Remembers(s: Sys, ref: string, name: string) {
    && ref in s.mem.orders && ref in s.disk.rows
    && (s.mem.orders[ref].state.Filled? <==> name == "Filled")
    && (s.mem.orders[ref].state.Cancelled? <==> SaysCancelled(name))
    && StoredAs(s.mem.orders[ref].state, s.disk.rows[ref].state)
  }

  lemma NowRemembers(s: Sys, st: Status)
    requires Mirror(s) && Concerns(s, st) && Settles(st)
    ensures Remembers(ApplyStatus(s, st), st.ref, st.name)
  {
    OrderAfterStatus(s, st);
    RowAfterStatus(s, st);
  }

  lemma StillRemembers(s: Sys, st: Status, ref: string, name: string)
    requires Mirror(s) && Remembers(s, ref, name) && (st.ref == ref ==> !Settles(st))
    ensures Remembers(ApplyStatus(s, st), ref, name)
  {
    if st.ref == ref {
      OrderAfterStatus(s, st);
      RowAfterStatus(s, st);
    } else {
      OthersAfterStatus(s, st);
      assert Lookup(ApplyStatus(s, st).mem.orders, ref) == Lookup(s.mem.orders, ref);
      assert Lookup(ApplyStatus(s, st).disk.rows, ref) == Lookup(s.disk.rows, ref);
    }
  }

  /**
   * After any statuses, what the process has stored of an order follows the last one for it that settles
   * something: filled exactly when that one says so, cancelled exactly when it says so.
   */
  lemma {:induction false} LastWordCounts(s: Sys, sts: seq<Status>, k: nat)
    requires Mirror(s) && k < |sts| && Concerns(s, sts[k]) && Settles(sts[k])
    requires forall j :: k < j < |sts| && sts[j].ref == sts[k].ref ==> !Settles(sts[j])
    ensures Remembers(ApplyAll(s, sts), sts[k].ref, sts[k].name)
    decreases |sts|
  {
    var n := |sts| - 1;
    StatusesMirror(s, sts[..n]);
    if k == n {
      NowRemembers(ApplyAll(s, sts[..n]), sts[n]);
    } else {
      LastWordCounts(s, sts[..n], k);
      StillRemembers(ApplyAll(s, sts[..n]), sts[n], sts[k].ref, sts[k].name);
    }
  }

  lemma {:induction false} StatusesMirror(s: Sys, sts: seq<Status>)
    requires Mirror(s)
    ensures Mirror(ApplyAll(s, sts)) && s.mem.orders.Keys <= ApplyAll(s, sts).mem.orders.Keys
  {
    if sts == [] {
    } else {
      StatusesMirror(s, sts[..|sts| - 1]);
      ApplyStatusMirror(ApplyAll(s, sts[..|sts| - 1]), sts[|sts| - 1]);
    }
  }
}
