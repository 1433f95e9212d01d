/** The stateful objects: the durable store, the broker double and the order manager itself. */
module Orders {
  import opened Common
  import opened Domain
  import opened Refs
  import opened OrderModel
  import opened Reconciliation
  import opened ReconcileProofs

  /** The two tables that survive a crash, each an upsert keyed by its primary key. */
  class StateStore {
    var rows: map<string, Row>
    var fills: map<string, Fill>

    constructor ()
      ensures View() == Disk(map[], map[])
    {
      rows, fills := map[], map[];
    }

    function View(): Disk
      reads this
    {
      Disk(rows, fills)
    }

    method SaveOrder(mo: ManagedOrder, perm: Option<int>)
      modifies this
      ensures View() == OrderModel.SaveOrder(old(View()), mo, perm)
    {
      var kept := perm;
      if perm.None? && mo.ref in rows {
        kept := rows[mo.ref].permId;
      }
      rows := rows[mo.ref := ToRow(mo, kept)];
    }

    method SaveFill(execId: string, fill: Fill)
      modifies this
      ensures View() == OrderModel.SaveFill(old(View()), execId, fill)
    {
      if execId !in fills {
        fills := fills[execId := fill];
      }
    }

    method FindOrderByRef(ref: string) returns (row: Option<Row>)
      ensures row == Lookup(rows, ref)
    {
      row := if ref in rows then Some(rows[ref]) else None;
    }
  }

  /** Cancelling by id: the first status carrying that id becomes cancelled. */
  function CancelFirst(entries: seq<Status>, id: int): (after: seq<Status>)
    ensures |after| == |entries|
    ensures forall i :: 0 <= i < |entries| && after[i] != entries[i] ==>
              entries[i].orderId == id && after[i] == entries[i].(name := "Cancelled", remaining := 0.0)
  {
    if entries == [] then []
    else if entries[0].orderId == id then [CancelledStatus(entries[0])] + entries[1..]
    else [entries[0]] + CancelFirst(entries[1..], id)
  }

  ghost predicate DistinctIds(entries: seq<Status>) {
    forall i, j :: 0 <= i < j < |entries| ==> entries[i].orderId != entries[j].orderId
  }

  /** With one status per id, cancelling ids one at a time cancels exactly the set of them. */
  lemma {:induction false} CancelOneMore(entries: seq<Status>, ids: set<int>, id: int)
    requires DistinctIds(entries)
    ensures CancelFirst(CancelIn(entries, ids), id) == CancelIn(entries, ids + {id})
  {
    var before, after := CancelIn(entries, ids), CancelIn(entries, ids + {id});
    if entries == [] {
    } else {
      assert before[1..] == CancelIn(entries[1..], ids);
      assert after[1..] == CancelIn(entries[1..], ids + {id});
      if entries[0].orderId == id {
        assert before[1..] == after[1..];
        assert CancelledStatus(CancelledStatus(entries[0])) == CancelledStatus(entries[0]);
      } else {
        CancelOneMore(entries[1..], ids, id);
      }
    }
  }

  /** The broker, as far as reconciliation can see it. */
  class Broker {
    var entries: seq<Status>
    var nextId: int
    var placed: seq<Spec>
    var cancelRequests: nat

    constructor ()
      ensures View() == Book([], 1000, [], 0)
    {
      entries, nextId, placed, cancelRequests := [], 1000, [], 0;
    }

    function View(): Book
      reads this
    {
      Book(entries, nextId, placed, cancelRequests)
    }

    /** Answers as given, or raises when no answer is given. */
    method PlaceSingle(spec: Spec, answer: Option<Answer>) returns (st: Option<Status>)
      modifies this
      ensures answer.None? ==> st.None? && View() == old(View())
      ensures answer.Some? ==> st == Some(NewStatus(spec, old(nextId), answer.value))
      ensures answer.Some? ==> View() == Reconciliation.PlaceSingle(old(View()), spec, answer.value)
      ensures answer.Some? ==>
        && st.value.ref == spec.ref && st.value.orderId == old(nextId) && st.value.name == answer.value.name
        && st.value.filled == answer.value.filled && st.value.remaining == spec.quantity - answer.value.filled
        && st.value.symbol == spec.symbol && st.value.action == spec.action
        && nextId == old(nextId) + 1 && placed == old(placed) + [spec]
    {
      if answer.None? {
        return None;
      }
      placed := placed + [spec];
      var status := NewStatus(spec, nextId, answer.value);
      entries := Upsert(entries, status);
      nextId := nextId + 1;
      return Some(status);
    }

    method CancelOrder(id: int)
      modifies this
      ensures View() == old(View()).(entries := CancelFirst(old(entries), id),
                                     cancelRequests := old(cancelRequests) + 1)
    {
      cancelRequests := cancelRequests + 1;
      entries := CancelFirst(entries, id);
    }
  }

  /** The part of a map whose keys lie in `keys`. */
  function Part<T>(m: map<string, T>, keys: set<string>): map<string, T> {
    map r | r in m && r in keys :: m[r]
  }

  lemma PartMerge<T>(base: map<string, T>, m: map<string, T>, done: set<string>, r: string)
    ensures (base + Part(m, done)) + Part(m, {r}) == base + Part(m, done + {r})
  {
  }

  lemma CancelOneOrder(s: Sys, done: set<string>, ref: string)
    requires done <= s.mem.orders.Keys && ref in s.mem.orders && ref !in done
    ensures CancelLocally(s, done + {ref}).mem
         == s.mem.(orders := CancelLocally(s, done).mem.orders[ref := s.mem.orders[ref].(state := Cancelled)])
  {
    assert CancelLocally(s, done + {ref}).mem.orders
        == CancelLocally(s, done).mem.orders[ref := s.mem.orders[ref].(state := Cancelled)];
  }

  lemma CancelOneRow(s: Sys, done: set<string>, ref: string)
    requires done <= s.mem.orders.Keys && ref in s.mem.orders && ref !in done && ref in s.disk.rows
    ensures CancelLocally(s, done + {ref}).disk
         == s.disk.(rows := CancelLocally(s, done).disk.rows[ref := CancelledRow(s, ref)])
    ensures CancelLocally(s, done).disk.rows[ref] == s.disk.rows[ref]
  {
    assert CancelLocally(s, done + {ref}).disk.rows == CancelLocally(s, done).disk.rows[ref := CancelledRow(s, ref)];
  }

  /** Cancelling locally one order at a time, each with its row, cancels the whole set. */
  lemma CancelOne(s: Sys, done: set<string>, ref: string)
    requires Mirror(s) && done <= s.mem.orders.Keys && ref in s.mem.orders && ref !in done
    ensures CancelLocally(s, done).mem.orders[ref] == s.mem.orders[ref]
    ensures Store(CancelLocally(s, done), s.mem.orders[ref].(state := Cancelled), None)
            == CancelLocally(s, done + {ref})
  {
    assert s.mem.orders[ref].ref == ref;
    CancelOneOrder(s, done, ref);
    CancelOneRow(s, done, ref);
  }

  /** The broker's book once the orders in `stale` have been asked to be cancelled. */
  function BookAfter(s: Sys, b: Book, stale: set<string>): Book {
    b.(entries := CancelIn(b.entries, BrokerIds(s, stale)), cancelRequests := b.cancelRequests + |stale|)
  }

  lemma BookAfterNone(s: Sys, b: Book)
    ensures BookAfter(s, b, {}) == b
  {
    assert BrokerIds(s, {}) == {};
    assert CancelIn(b.entries, {}) == b.entries;
  }

  lemma BookAfterOneMore(s: Sys, b: Book, done: set<string>, ref: string)
    requires DistinctIds(b.entries) && ref !in done && ref in s.mem.orders && s.mem.orders[ref].brokerId.Some?
    ensures var c := BookAfter(s, b, done);
            BookAfter(s, b, done + {ref})
            == c.(entries := CancelFirst(c.entries, s.mem.orders[ref].brokerId.value),
                  cancelRequests := c.cancelRequests + 1)
  {
    CancelOneMore(b.entries, BrokerIds(s, done), s.mem.orders[ref].brokerId.value);
    assert BrokerIds(s, done + {ref}) == BrokerIds(s, done) + {s.mem.orders[ref].brokerId.value};
  }

  /** A pass is steps 1 to 3, then 4, then 5. */
  lemma ReconcileIs(s: Sys, b: Book, env: Env, fix: Repair)
    requires fix == Repaired(s, b, env)
    ensures Reconciliation.Reconcile(s, b, env) == Reconciliation.Outcome(
      fix.s, BookAfter(fix.s, fix.b, StaleChildren(fix.s, Symbols(env.account))),
      Report(AdoptedRefs(OrderModel.Unblock(s, env.now), OpenOrders(b.entries)),
             OrphanRefs(Applied(s, b, env.now), Known(b)),
             fix.unprotected, fix.placed, fix.unresolved, fix.s.mem.blocked.Keys))
  {
  }

  lemma RepairKeepsIds(s: Sys, b: Book, env: Env, covered: set<string>, account: seq<Held>)
    requires ValidBook(b)
    ensures DistinctIds(RepairAll(s, b, env, covered, account).b.entries)
  {
    RepairAllValid(s, b, env, covered, account);
  }

  lemma RestoredOne(rows: map<string, Row>, ref: string)
    requires ref in rows
    ensures Part(Somes(Rebuild(rows)), {ref})
         == if FromRow(ref, rows[ref]).Some? then map[ref := FromRow(ref, rows[ref]).value] else map[]
    ensures Part(StoredPerms(rows, Somes(Rebuild(rows)).Keys), {ref})
         == if FromRow(ref, rows[ref]).Some? && Truthy(rows[ref].permId)
            then map[ref := rows[ref].permId.value] else map[]
  {
    assert Rebuild(rows)[ref] == FromRow(ref, rows[ref]);
  }

  /** Restoring one row more is taking one part more of what can be restored. */
  lemma MergeOne(rows: map<string, Row>, orders: map<string, ManagedOrder>, perms: map<string, int>,
      done: set<string>, ref: string)
    requires ref in rows
    ensures var good := Somes(Rebuild(rows));
      var mo, row := FromRow(ref, rows[ref]), rows[ref];
      && (orders + Part(good, done)) + (if mo.Some? then map[ref := mo.value] else map[])
         == orders + Part(good, done + {ref})
      && (perms + Part(StoredPerms(rows, good.Keys), done))
         + (if mo.Some? && Truthy(row.permId) then map[ref := row.permId.value] else map[])
         == perms + Part(StoredPerms(rows, good.Keys), done + {ref})
  {
    var good := Somes(Rebuild(rows));
    RestoredOne(rows, ref);
    PartMerge(orders, good, done, ref);
    PartMerge(perms, StoredPerms(rows, good.Keys), done, ref);
  }

  class OrderManager {
    const store: StateStore
    var orders: map<string, ManagedOrder>
    var perms: map<string, int>
    var blocked: map<string, real>
    var seen: set<string>
    var fills: seq<Fill>

    constructor (store: StateStore)
      ensures this.store == store && View() == Sys(FRESH, store.View())
    {
      this.store := store;
      orders, perms, blocked, seen, fills := map[], map[], map[], {}, [];
    }

    function View(): Sys
      reads this, store
    {
      Sys(Memory(orders, perms, blocked, seen, fills), store.View())
    }

    /** Memory and disk agree. */
    ghost predicate Valid()
      reads this, store
    {
      Mirror(View())
    }

    method Persist(mo: ManagedOrder, perm: Option<int>)
      modifies store
      ensures View() == old(View()).(
        disk := OrderModel.SaveOrder(old(store.View()), mo, OrElse(perm, Lookup(perms, mo.ref))))
    {
      var known := if Truthy(perm) then perm else Lookup(perms, mo.ref);
      store.SaveOrder(mo, known);
    }

    method UnblockExpired(now: real)
      modifies this
      ensures View() == OrderModel.Unblock(old(View()), now)
    {
      var expired := set x | x in blocked && now - blocked[x] > BLOCK_TTL;
      ghost var start := blocked;
      while expired != {}
        invariant expired <= blocked.Keys <= start.Keys
        invariant forall x :: x in blocked ==> blocked[x] == start[x]
        invariant forall x :: x in start ==> (x !in blocked || x in expired <==> now - start[x] > BLOCK_TTL)
        invariant View() == old(View()).(mem := old(View()).mem.(blocked := blocked))
        decreases expired
      {
        var symbol :| symbol in expired;
        blocked := blocked - {symbol};
        expired := expired - {symbol};
      }
      assert blocked == OrderModel.Unblock(old(View()), now).mem.blocked;
    }

    /** `_apply_status`: adopt if it is one of ours, update, remember the perm id, write the row. */
    method TakeStatus(st: Status)
      requires st.ref in orders ==> orders[st.ref].ref == st.ref
      modifies this, store
      ensures View() == OrderModel.ApplyStatus(old(View()), st)
    {
      if st.ref !in orders {
        if !IsOurs(st.ref) {
          return;
        }
        orders := orders[st.ref := Adopted(st)];
      }
      var mo := Updated(orders[st.ref], st);
      orders := orders[st.ref := mo];
      if Truthy(st.permId) {
        perms := perms[st.ref := st.permId.value];
      }
      Persist(mo, st.permId);
      assert View().mem.orders == OrderModel.ApplyStatus(old(View()), st).mem.orders;
    }

    method ApplyStatus(st: Status)
      requires Valid()
      modifies this, store
      ensures Valid()
      ensures View() == OrderModel.ApplyStatus(old(View()), st)
    {
      ApplyStatusMirror(View(), st);
      TakeStatus(st);
    }

    method OnExecution(e: Execution)
      modifies this, store
      ensures View() == OrderModel.OnExecution(old(View()), e)
    {
      if e.execId in seen {
        return;
      }
      seen := seen + {e.execId};
      fills := fills + [e.fill];
      store.SaveFill(e.execId, e.fill);
    }

    /** Memory first, then the row. */
    method Write(mo: ManagedOrder)
      modifies this, store
      ensures View() == OrderModel.Store(old(View()), mo, None)
    {
      orders := orders[mo.ref := mo];
      Persist(mo, None);
    }

    method Record(mo: ManagedOrder)
      requires Valid() && IsOurs(mo.ref)
      modifies this, store
      ensures Valid()
      ensures View() == OrderModel.Store(old(View()), mo, None)
    {
      StoreMirror(View(), mo);
      Write(mo);
    }

    /** `place_bracket` up to the wire call; on `Sent` the returned specs are what goes out. */
    method BeginBracket(now: real, order: SizedOrder, cycle: string, days: Days)
      returns (outcome: BracketOutcome, specs: seq<Spec>)
      requires Valid()
      modifies this, store
      ensures Valid()
      ensures (View(), outcome) == OrderModel.BeginBracket(old(View()), now, order, cycle, days)
      ensures specs == if outcome == Sent then BracketSpecs(order, cycle, days) else []
    {
      UnblockExpired(now);
      ghost var s0 := View();
      if order.symbol in blocked {
        return SymbolBlocked, [];
      }
      var ref := EntryRef(days, cycle, order.symbol);
      if ref in orders {
        return AlreadyKnown, [];
      }
      var row := store.FindOrderByRef(ref);
      if row.Some? {
        return AlreadyStored, [];
      }
      var legs := Legs(order, cycle, days);
      LegsOurs(order, cycle, days);
      for i := 0 to |legs|
        invariant Valid() && View() == WriteAhead(s0, legs, i)
      {
        Record(legs[i]);
      }
      return Sent, BracketSpecs(order, cycle, days);
    }

    /** The wire call answered: absorb the statuses it returned. */
    method FinishBracket(statuses: seq<Status>)
      requires Valid()
      modifies this, store
      ensures Valid()
      ensures View() == ApplyAll(old(View()), statuses)
    {
      for i := 0 to |statuses|
        invariant Valid() && View() == ApplyAll(old(View()), statuses[..i])
      {
        assert statuses[..i + 1][..i] == statuses[..i];
        ApplyStatus(statuses[i]);
      }
      assert statuses[..|statuses|] == statuses;
    }

    /** The wire call raised: the rows stay, and the symbol is blocked. */
    method FailBracket(symbol: string, now: real)
      requires Valid()
      modifies this
      ensures Valid()
      ensures View() == OrderModel.Block(old(View()), symbol, now)
    {
      blocked := blocked[symbol := now];
    }

    /** One row of the load: an order that can be rebuilt is restored, with its perm id if it has one. */
    method RestoreRow(ref: string, row: Row)
      modifies this`orders, this`perms
      ensures var mo := FromRow(ref, row);
        && orders == old(orders) + (if mo.Some? then map[ref := mo.value] else map[])
        && perms == old(perms) + (if mo.Some? && Truthy(row.permId) then map[ref := row.permId.value] else map[])
    {
      var mo := FromRow(ref, row);
      if mo.Some? {
        orders := orders[ref := mo.value];
        if Truthy(row.permId) {
          perms := perms[ref := row.permId.value];
        }
      }
    }

    method LoadFromStore()
      modifies this`orders, this`perms
      ensures View() == OrderModel.Load(old(View()))
    {
      var todo := store.rows.Keys;
      ghost var good := Somes(Rebuild(store.rows));
      ghost var stored := StoredPerms(store.rows, good.Keys);
      ghost var done: set<string> := {};
      while todo != {}
        invariant done + todo == store.rows.Keys
        invariant orders == old(orders) + Part(good, done)
        invariant perms == old(perms) + Part(stored, done)
        decreases todo
      {
        var ref :| ref in todo;
        RestoreRow(ref, store.rows[ref]);
        MergeOne(store.rows, old(orders), old(perms), done, ref);
        todo, done := todo - {ref}, done + {ref};
      }
      assert good == Part(good, done);
      assert stored == Part(stored, done);
    }

    /** Places a stop for a position that has none; false when there is no price or the call raises. */
    method EmitProtectiveStop(broker: Broker, env: Env, h: Held) returns (placed: bool)
      requires Valid()
      modifies this, store, broker
      ensures Valid()
      ensures Emitted(View(), broker.View(), placed) == Reconciliation.Emit(old(View()), old(broker.View()), env, h)
    {
      var reference := ReferencePrice(Lookup(env.quotes, h.symbol), h.position);
      if reference.None? || reference.value <= 0.0 {
        return false;
      }
      var mo := StopOrder(env, h, reference.value);
      MakeRefOurs(StampOf(env, h.symbol).day, "protect-" + StampOf(env, h.symbol).second, h.symbol, "STOP");
      Record(mo);
      var st := broker.PlaceSingle(StopSpec(mo), Lookup(env.answers, h.symbol));
      if st.None? {
        return false;
      }
      ApplyStatus(st.value);
      return true;
    }

    /** Step 1: absorb the open orders of ours, adopting those not known here. */
    method AbsorbOpenOrders(open: seq<Status>) returns (adopted: seq<string>)
      requires Valid()
      modifies this, store
      ensures Valid()
      ensures View() == AbsorbOpen(old(View()), open) && adopted == AdoptedRefs(old(View()), open)
    {
      adopted := [];
      for i := 0 to |open|
        invariant Valid() && View() == AbsorbOpen(old(View()), open[..i])
        invariant adopted == AdoptedRefs(old(View()), open[..i])
      {
        assert open[..i + 1][..i] == open[..i];
        if IsOurs(open[i].ref) {
          if open[i].ref !in orders {
            adopted := adopted + [open[i].ref];
          }
          ApplyStatus(open[i]);
        }
      }
      assert open[..|open|] == open;
    }

    /** Step 1, continued: absorb the completed orders of ours that are known here. */
    method AbsorbCompletedOrders(completed: seq<Status>)
      requires Valid()
      modifies this, store
      ensures Valid()
      ensures View() == AbsorbCompleted(old(View()), completed)
    {
      for i := 0 to |completed|
        invariant Valid() && View() == AbsorbCompleted(old(View()), completed[..i])
      {
        assert completed[..i + 1][..i] == completed[..i];
        if IsOurs(completed[i].ref) && completed[i].ref in orders {
          ApplyStatus(completed[i]);
        }
      }
      assert completed[..|completed|] == completed;
    }

    /** One order cancelled in memory and on disk. */
    method CancelLocal(ref: string, ghost s: Sys, ghost done: set<string>)
      requires Mirror(s) && done <= s.mem.orders.Keys && ref in s.mem.orders && ref !in done
      requires View() == CancelLocally(s, done)
      modifies this, store
      ensures View() == CancelLocally(s, done + {ref})
    {
      CancelOne(s, done, ref);
      Write(orders[ref].(state := Cancelled));
    }

    method CancelEach(gone: set<string>)
      requires Mirror(View()) && gone <= orders.Keys
      modifies this, store
      ensures View() == CancelLocally(old(View()), gone)
    {
      ghost var s := View();
      var todo := gone;
      ghost var done: set<string> := {};
      assert CancelLocally(s, {}) == s;
      while todo != {}
        invariant done + todo == gone && done !! todo && View() == CancelLocally(s, done)
        decreases todo
      {
        var ref :| ref in todo;
        CancelLocal(ref, s, done);
        todo, done := todo - {ref}, done + {ref};
      }
      assert done == gone;
    }

    /** Step 2: working orders the broker has never heard of are cancelled locally. */
    method CancelOrphans(known: set<string>) returns (orphaned: set<string>)
      requires Valid()
      modifies this, store
      ensures Valid()
      ensures View() == DropOrphans(old(View()), known) && orphaned == OrphanRefs(old(View()), known)
    {
      DropOrphansMirror(View(), known);
      orphaned := set r | r in orders && orders[r].state.IsWorking() && r !in known;
      CancelEach(orphaned);
    }

    /** Step 3: absorb executions, counting each one once. */
    method AbsorbExecutions(executions: seq<Execution>)
      requires Valid()
      modifies this, store
      ensures Valid()
      ensures View() == OnExecutions(old(View()), executions)
    {
      for i := 0 to |executions|
        invariant Valid() && View() == OnExecutions(old(View()), executions[..i])
      {
        assert executions[..i + 1][..i] == executions[..i];
        OnExecution(executions[i]);
      }
      assert executions[..|executions|] == executions;
    }

    /** One position without a stop: place one, or block its symbol. */
    method RepairOne(broker: Broker, env: Env, h: Held, ghost prev: Repair) returns (ok: bool)
      requires Valid() && prev.s == View() && prev.b == broker.View()
      modifies this, store, broker
      ensures Valid()
      ensures var fix := RepairedOne(prev, env, h);
        && View() == fix.s && broker.View() == fix.b
        && fix.unprotected == prev.unprotected + [h.symbol]
        && fix.placed == (if ok then prev.placed + [h.symbol] else prev.placed)
        && fix.unresolved == (if ok then prev.unresolved else prev.unresolved + [h.symbol])
    {
      ok := EmitProtectiveStop(broker, env, h);
      if !ok {
        blocked := blocked[h.symbol := StampOf(env, h.symbol).now];
      }
    }

    /** Step 4: place a stop for every open position without one, and block those that stay without. */
    method RepairPositions(broker: Broker, env: Env)
      returns (unprotected: seq<string>, placed: seq<string>, unresolved: seq<string>)
      requires Valid()
      modifies this, store, broker
      ensures Valid()
      ensures Repair(View(), broker.View(), unprotected, placed, unresolved)
           == RepairAll(old(View()), old(broker.View()), env, ProtectedSymbols(old(View())), env.account)
    {
      var covered := set r | r in orders && orders[r].state.IsWorking() && orders[r].stopPrice.Some?
                       :: orders[r].symbol;
      assert covered == ProtectedSymbols(View());
      ghost var s, b := View(), broker.View();
      ghost var fix := Repair(s, b, [], [], []);
      unprotected, placed, unresolved := [], [], [];
      for i := 0 to |env.account|
        invariant Valid() && fix == Repair(View(), broker.View(), unprotected, placed, unresolved)
        invariant fix == RepairAll(s, b, env, covered, env.account[..i])
      {
        var h := env.account[i];
        RepairNext(s, b, env, covered, i);
        if h.symbol !in covered {
          ghost var prev := fix;
          var ok := RepairOne(broker, env, h, prev);
          fix := RepairedOne(prev, env, h);
          unprotected := unprotected + [h.symbol];
          if ok {
            placed := placed + [h.symbol];
          } else {
            unresolved := unresolved + [h.symbol];
          }
        }
      }
      assert env.account[..|env.account|] == env.account;
    }

    /** Step 5: cancel working child orders of symbols no longer held. */
    method CancelStaleChildren(broker: Broker, held: set<string>)
      requires DistinctIds(broker.entries)
      modifies broker
      ensures broker.View() == BookAfter(View(), old(broker.View()), StaleChildren(View(), held))
    {
      ghost var s, b := View(), broker.View();
      var todo := StaleChildren(View(), held);
      ghost var stale := todo;
      ghost var done: set<string> := {};
      BookAfterNone(s, b);
      while todo != {}
        invariant done + todo == stale && done !! todo && View() == s
        invariant broker.View() == BookAfter(s, b, done)
        decreases todo
      {
        var ref :| ref in todo;
        BookAfterOneMore(s, b, done, ref);
        broker.CancelOrder(orders[ref].brokerId.value);
        todo, done := todo - {ref}, done + {ref};
      }
      assert done == stale;
    }

    /** Steps 1 to 3. */
    method RebuildView(broker: Broker, env: Env) returns (adopted: seq<string>, orphaned: set<string>)
      requires Valid()
      modifies this, store
      ensures Valid() && View() == Rebuilt(old(View()), broker.View(), env)
      ensures adopted == AdoptedRefs(OrderModel.Unblock(old(View()), env.now), OpenOrders(broker.entries))
      ensures orphaned == OrphanRefs(Applied(old(View()), broker.View(), env.now), Known(broker.View()))
    {
      var open, completed := OpenOrders(broker.entries), CompletedOrders(broker.entries);
      UnblockExpired(env.now);
      var known := set st: Status | st in open + completed && st.ref != "" :: st.ref;
      adopted := AbsorbOpenOrders(open);
      AbsorbCompletedOrders(completed);
      orphaned := CancelOrphans(known);
      AbsorbExecutions(env.executions);
    }

    /** Steps 4 and 5. */
    method RepairAndCancel(broker: Broker, env: Env)
      returns (unprotected: seq<string>, placed: seq<string>, unresolved: seq<string>)
      requires Valid() && ValidBook(broker.View())
      modifies this, store, broker
      ensures Valid()
      ensures var fix := RepairAll(old(View()), old(broker.View()), env, ProtectedSymbols(old(View())), env.account);
        && View() == fix.s && unprotected == fix.unprotected && placed == fix.placed && unresolved == fix.unresolved
        && broker.View() == BookAfter(fix.s, fix.b, StaleChildren(fix.s, Symbols(env.account)))
    {
      RepairKeepsIds(View(), broker.View(), env, ProtectedSymbols(View()), env.account);
      unprotected, placed, unresolved := RepairPositions(broker, env);
      CancelStaleChildren(broker, set h | h in env.account :: h.symbol);
    }

    /** One whole pass, run on every connect and reconnect. */
    method Reconcile(broker: Broker, env: Env) returns (report: Report)
      requires Valid() && ValidBook(broker.View())
      modifies this, store, broker
      ensures Valid()
      ensures Reconciliation.Outcome(View(), broker.View(), report)
              == Reconciliation.Reconcile(old(View()), old(broker.View()), env)
    {
      ReconcileIs(View(), broker.View(), env, Repaired(View(), broker.View(), env));
      var adopted, orphaned := RebuildView(broker, env);
      var unprotected, placed, unresolved := RepairAndCancel(broker, env);
      report := Report(adopted, orphaned, unprotected, placed, unresolved, blocked.Keys);
    }
  }
}
