/**
 * The order lifecycle as state transformers. `Memory` is what a process holds, `Disk` is what
 * survives it; every function below is one stretch of the order manager between two awaits.
 */
module OrderModel {
  import opened Common
  import opened Domain
  import opened Refs

  datatype OrderState = Pending | Submitted | Partial | Filled | Cancelled | Rejected {
    predicate IsWorking() { Pending? || Submitted? || Partial? }
  }

  function StateName(s: OrderState): string {
    match s
    case Pending => "PENDING"
    case Submitted => "SUBMITTED"
    case Partial => "PARTIAL"
    case Filled => "FILLED"
    case Cancelled => "CANCELLED"
    case Rejected => "REJECTED"
  }

  function ParseState(name: string): Option<OrderState> {
    if name == "PENDING" then Some(Pending)
    else if name == "SUBMITTED" then Some(Submitted)
    else if name == "PARTIAL" then Some(Partial)
    else if name == "FILLED" then Some(Filled)
    else if name == "CANCELLED" then Some(Cancelled)
    else if name == "REJECTED" then Some(Rejected)
    else None
  }

  datatype ManagedOrder = ManagedOrder(
    ref: string, symbol: string, action: string, quantity: real,
    limitPrice: Option<real>, stopPrice: Option<real>, targetPrice: Option<real>,
    state: OrderState, brokerId: Option<int>, parentRef: Option<string>,
    filled: real, avgFill: Option<real>, cycle: Option<string>, rationale: Option<string>)

  /** A stored order, keyed by its ref; the two timestamps are not modelled. */
  datatype Row = Row(
    symbol: string, action: string, quantity: real,
    limitPrice: Option<real>, stopPrice: Option<real>, targetPrice: Option<real>,
    state: string, brokerId: Option<int>, permId: Option<int>, parentRef: Option<string>,
    filled: Option<real>, avgFill: Option<real>, cycle: Option<string>, rationale: Option<string>)

  /** What the broker says about one order. */
  datatype Status = Status(
    ref: string, orderId: int, permId: Option<int>, name: string,
    filled: real, remaining: real, avgFill: Option<real>, symbol: string, action: string)

  datatype Execution = Execution(execId: string, fill: Fill)

  datatype Fill = Fill(
    symbol: string, action: string, quantity: real, price: real, commission: real, ts: real, ref: string)

  /** One leg as sent to the broker. */
  datatype Spec = Spec(
    symbol: string, action: string, quantity: real, orderType: string,
    limitPrice: Option<real>, stopPrice: Option<real>, ref: string, ocaGroup: Option<string>)

  datatype Memory = Memory(
    orders: map<string, ManagedOrder>, perms: map<string, int>,
    blocked: map<string, real>, seen: set<string>, fills: seq<Fill>)

  datatype Disk = Disk(rows: map<string, Row>, fills: map<string, Fill>)

  datatype Sys = Sys(mem: Memory, disk: Disk)

  const FRESH := Memory(map[], map[], map[], {}, [])

  /** How long a symbol stays blocked, in seconds. */
  const BLOCK_TTL := 600.0

  // ------------------------------------------------------------------ rows

  function ToRow(mo: ManagedOrder, perm: Option<int>): Row {
    Row(mo.symbol, mo.action, mo.quantity, mo.limitPrice, mo.stopPrice, mo.targetPrice,
        StateName(mo.state), mo.brokerId, perm, mo.parentRef, Some(mo.filled), mo.avgFill, mo.cycle, mo.rationale)
  }

  /** Rebuilds an order from its row; a row whose state text is unknown cannot be rebuilt. */
  function FromRow(ref: string, row: Row): Option<ManagedOrder> {
    match ParseState(row.state)
    case None => None
    case Some(state) =>
      Some(ManagedOrder(ref, row.symbol, row.action, row.quantity, row.limitPrice, row.stopPrice, row.targetPrice,
                        state, row.brokerId, row.parentRef, if row.filled.Some? then row.filled.value else 0.0,
                        row.avgFill, row.cycle, row.rationale))
  }

  lemma RowRoundTrip(mo: ManagedOrder, perm: Option<int>)
    ensures FromRow(mo.ref, ToRow(mo, perm)) == Some(mo)
  {
    assert ParseState(StateName(mo.state)) == Some(mo.state);
  }

  predicate Truthy(x: Option<int>) {
    x.Some? && x.value != 0
  }

  /** Python's `a or b` on optional ids. */
  function OrElse(a: Option<int>, b: Option<int>): Option<int> {
    if Truthy(a) then a else b
  }

  /** A missing perm id keeps the one already stored. */
  function KeptPerm(disk: Disk, ref: string, perm: Option<int>): Option<int> {
    if perm.Some? then perm else if ref in disk.rows then disk.rows[ref].permId else None
  }

  /** Insert a row or overwrite all of it but a perm id the caller does not give. */
  function SaveOrder(disk: Disk, mo: ManagedOrder, perm: Option<int>): Disk {
    disk.(rows := disk.rows[mo.ref := ToRow(mo, KeptPerm(disk, mo.ref, perm))])
  }

  /** The first fill stored under an execution id stays. */
  function SaveFill(disk: Disk, execId: string, fill: Fill): Disk {
    if execId in disk.fills then disk else disk.(fills := disk.fills[execId := fill])
  }

  /** Put an order in memory and mirror it to its row. */
  function Store(s: Sys, mo: ManagedOrder, perm: Option<int>): Sys {
    Sys(s.mem.(orders := s.mem.orders[mo.ref := mo]),
        SaveOrder(s.disk, mo, OrElse(perm, Lookup(s.mem.perms, mo.ref))))
  }

  function Rebuild(rows: map<string, Row>): map<string, Option<ManagedOrder>> {
    map r | r in rows :: FromRow(r, rows[r])
  }

  function Somes<T>(m: map<string, Option<T>>): map<string, T> {
    map r | r in m && m[r].Some? :: m[r].value
  }

  function StoredPerms(rows: map<string, Row>, restored: set<string>): map<string, int> {
    map r | r in rows && r in restored && Truthy(rows[r].permId) :: rows[r].permId.value
  }

  /** Restores orders and perm ids from the rows that can be rebuilt. */
  function Load(s: Sys): Sys {
    var good := Somes(Rebuild(s.disk.rows));
    s.(mem := s.mem.(orders := s.mem.orders + good, perms := s.mem.perms + StoredPerms(s.disk.rows, good.Keys)))
  }

  // ------------------------------------------------------------------ broker events

  /** The broker's status names; an unknown name leaves the state alone. */
  function StatusState(name: string, current: OrderState): OrderState {
    if name == "PendingSubmit" || name == "ApiPending" then Pending
    else if name == "PendingCancel" || name == "PreSubmitted" || name == "Submitted" then Submitted
    else if name == "ApiCancelled" || name == "Cancelled" then Cancelled
    else if name == "Filled" then Filled
    else if name == "Inactive" then Rejected
    else current
  }

  function NewState(current: OrderState, st: Status): OrderState {
    var mapped := StatusState(st.name, current);
    if st.filled > 0.0 && !mapped.Filled? && !mapped.Cancelled? then Partial else mapped
  }

  function Updated(mo: ManagedOrder, st: Status): ManagedOrder {
    mo.(state := NewState(mo.state, st),
        brokerId := OrElse(Some(st.orderId), mo.brokerId),
        filled := st.filled,
        avgFill := if st.avgFill.Some? && st.avgFill.value != 0.0 then st.avgFill else mo.avgFill)
  }

  /** The record made for an order of ours that only the broker remembers. */
  function Adopted(st: Status): ManagedOrder {
    ManagedOrder(st.ref, st.symbol, st.action, st.filled + st.remaining, None, None, None,
                 Pending, None, None, 0.0, None, None, None)
  }

  function ApplyStatus(s: Sys, st: Status): Sys {
    if st.ref !in s.mem.orders && !IsOurs(st.ref) then s
    else
      var mo := if st.ref in s.mem.orders then s.mem.orders[st.ref] else Adopted(st);
      var perms := if Truthy(st.permId) then s.mem.perms[st.ref := st.permId.value] else s.mem.perms;
      Store(s.(mem := s.mem.(perms := perms)), Updated(mo, st), st.permId)
  }

  /** Applying a list of statuses in order. */
  function ApplyAll(s: Sys, sts: seq<Status>): Sys {
    if sts == [] then s else ApplyStatus(ApplyAll(s, sts[..|sts| - 1]), sts[|sts| - 1])
  }

  /** A fill is recorded the first time its execution id is seen. */
  function OnExecution(s: Sys, e: Execution): Sys {
    if e.execId in s.mem.seen then s
    else Sys(s.mem.(seen := s.mem.seen + {e.execId}, fills := s.mem.fills + [e.fill]),
             SaveFill(s.disk, e.execId, e.fill))
  }

  function OnExecutions(s: Sys, es: seq<Execution>): Sys {
    if es == [] then s else OnExecution(OnExecutions(s, es[..|es| - 1]), es[|es| - 1])
  }

  // ------------------------------------------------------------------ placement

  function Unblock(s: Sys, now: real): Sys {
    s.(mem := s.mem.(blocked := map x | x in s.mem.blocked && now - s.mem.blocked[x] <= BLOCK_TTL :: s.mem.blocked[x]))
  }

  function Block(s: Sys, symbol: string, now: real): Sys {
    s.(mem := s.mem.(blocked := s.mem.blocked[symbol := now]))
  }

  /** The calendar day read for each of the three refs; midnight may fall between them. */
  datatype Days = Days(entry: string, stop: string, target: string)

  function EntryRef(days: Days, cycle: string, symbol: string): string {
    MakeRef(days.entry, cycle, symbol, "ENTRY")
  }

  function Clip(s: string): string {
    if |s| <= 500 then s else s[..500]
  }

  function SideName(a: Action): string {
    if a == Buy then "BUY" else "SELL"
  }

  function ExitName(a: Action): string {
    if a == Buy then "SELL" else "BUY"
  }

  function Legs(order: SizedOrder, cycle: string, days: Days): (legs: seq<ManagedOrder>)
    ensures |legs| == 3
  {
    var entry := EntryRef(days, cycle, order.symbol);
    var exit := ExitName(order.action);
    var qty := order.quantity as real;
    [ ManagedOrder(entry, order.symbol, SideName(order.action), qty, Some(order.entryPrice), Some(order.stopPrice),
                   Some(order.targetPrice), Pending, None, None, 0.0, None, Some(cycle), Some(Clip(order.rationale))),
      ManagedOrder(MakeRef(days.stop, cycle, order.symbol, "STOP"), order.symbol, exit, qty, None,
                   Some(order.stopPrice),
                   None, Pending, None, Some(entry), 0.0, None, Some(cycle), None),
      ManagedOrder(MakeRef(days.target, cycle, order.symbol, "TARGET"), order.symbol, exit, qty,
                   Some(order.targetPrice), None, None, Pending, None, Some(entry), 0.0, None, Some(cycle), None) ]
  }

  function BracketSpecs(order: SizedOrder, cycle: string, days: Days): (specs: seq<Spec>)
    ensures |specs| == 3
  {
    var oca := PREFIX + "-" + (if cycle == "" then "m" else cycle) + "-" + order.symbol;
    var exit := ExitName(order.action);
    var qty := order.quantity as real;
    [ Spec(order.symbol, SideName(order.action), qty, "LMT", Some(order.entryPrice), None,
           EntryRef(days, cycle, order.symbol), None),
      Spec(order.symbol, exit, qty, "STP", None, Some(order.stopPrice),
           MakeRef(days.stop, cycle, order.symbol, "STOP"), Some(oca)),
      Spec(order.symbol, exit, qty, "LMT", Some(order.targetPrice), None,
           MakeRef(days.target, cycle, order.symbol, "TARGET"), Some(oca)) ]
  }

  /** Commit the first `n` legs of a bracket, memory and row together. */
  function WriteAhead(s: Sys, legs: seq<ManagedOrder>, n: nat): Sys
    requires n <= |legs|
  {
    if n == 0 then s else Store(WriteAhead(s, legs, n - 1), legs[n - 1], None)
  }

  datatype BracketOutcome = SymbolBlocked | AlreadyKnown | AlreadyStored | Sent

  /** Everything `place_bracket` decides before it writes anything. */
  function BracketCheck(s: Sys, order: SizedOrder, cycle: string, days: Days): BracketOutcome {
    var ref := EntryRef(days, cycle, order.symbol);
    if order.symbol in s.mem.blocked then SymbolBlocked
    else if ref in s.mem.orders then AlreadyKnown
    else if ref in s.disk.rows then AlreadyStored
    else Sent
  }

  /** `place_bracket` up to the wire call: expire blocks, check, then write all three rows. */
  function BeginBracket(s: Sys, now: real, order: SizedOrder, cycle: string, days: Days): (Sys, BracketOutcome) {
    var s0 := Unblock(s, now);
    var outcome := BracketCheck(s0, order, cycle, days);
    (if outcome == Sent then WriteAhead(s0, Legs(order, cycle, days), 3) else s0, outcome)
  }

  /** One leg as sent and as recorded: same ref, symbol, side, quantity and price. */
  predicate SameOrder(spec: Spec, mo: ManagedOrder) {
    && spec.ref == mo.ref && spec.symbol == mo.symbol && spec.action == mo.action && spec.quantity == mo.quantity
    && (spec.orderType == "LMT" ==> spec.limitPrice.Some? && spec.limitPrice == mo.limitPrice && spec.stopPrice.None?)
    && (spec.orderType == "STP" ==> spec.stopPrice.Some? && spec.stopPrice == mo.stopPrice && spec.limitPrice.None?)
  }

  /** An entry and two exits: same quantity, opposite side, one cancelling the other, stop and target as sized. */
  predicate IsBracket(specs: seq<Spec>, order: SizedOrder) {
    && |specs| == 3 && specs[0].action == (if order.action == Buy then "BUY" else "SELL")
    && specs[1].action == specs[2].action == (if order.action == Buy then "SELL" else "BUY")
    && (forall i :: 0 <= i < 3 ==> specs[i].symbol == order.symbol && specs[i].quantity == order.quantity as real)
    && specs[0].ocaGroup.None? && specs[1].ocaGroup.Some? && specs[1].ocaGroup == specs[2].ocaGroup
    && specs[0].orderType == "LMT" && specs[0].limitPrice == Some(order.entryPrice)
    && specs[1].orderType == "STP" && specs[1].stopPrice == Some(order.stopPrice)
    && specs[2].orderType == "LMT" && specs[2].limitPrice == Some(order.targetPrice)
  }

  /** The refs and the cancel group say the day, the cycle and the symbol. */
  predicate IsNamed(specs: seq<Spec>, order: SizedOrder, cycle: string, days: Days) {
    var rest := ":" + (if cycle == "" then "manual" else cycle) + ":" + order.symbol;
    && |specs| == 3 && specs[0].ref == "ait:" + days.entry + rest + ":ENTRY"
    && specs[1].ref == "ait:" + days.stop + rest + ":STOP" && specs[2].ref == "ait:" + days.target + rest + ":TARGET"
    && specs[1].ocaGroup == Some("ait-" + (if cycle == "" then "m" else cycle) + "-" + order.symbol)
  }

  lemma SpecsAreNamed(order: SizedOrder, cycle: string, days: Days)
    ensures IsNamed(BracketSpecs(order, cycle, days), order, cycle, days)
  {
    var name := if cycle == "" then "manual" else cycle;
    RefText(days.entry, name, order.symbol, "ENTRY");
    RefText(days.stop, name, order.symbol, "STOP");
    RefText(days.target, name, order.symbol, "TARGET");
    assert PREFIX + "-" == "ait-";
  }

  lemma RefText(day: string, name: string, symbol: string, kind: string)
    ensures "ait" + ":" + day + ":" + name + ":" + symbol + ":" + kind
         == "ait:" + day + (":" + name + ":" + symbol) + (":" + kind)
  {
    assert "ait" + ":" == "ait:";
  }

  /** As recorded before it is sent: pending and unfilled, the entry with both exits and 500 letters of reason. */
  predicate IsUnsent(mo: ManagedOrder, order: SizedOrder, cycle: string, i: nat) {
    && mo.state == Pending && mo.filled == 0.0 && mo.brokerId.None? && mo.avgFill.None? && mo.cycle == Some(cycle)
    && (i == 0 ==>
          && mo.stopPrice == Some(order.stopPrice) && mo.targetPrice == Some(order.targetPrice)
          && mo.rationale == Some(if |order.rationale| > 500 then order.rationale[..500] else order.rationale))
    && (i > 0 ==> mo.targetPrice.None? && mo.rationale.None?)
  }

  lemma LegRefsDiffer(order: SizedOrder, cycle: string, days: Days, i: nat, j: nat)
    requires i < j < 3
    ensures Legs(order, cycle, days)[i].ref != Legs(order, cycle, days)[j].ref
  {
    var legs := Legs(order, cycle, days);
    var a, b, c := legs[0].ref, legs[1].ref, legs[2].ref;
    assert a[|a| - 1] == 'Y' && b[|b| - 1] == 'P' && c[|c| - 1] == 'T';
  }

  lemma {:induction false} WriteAheadWrites(s: Sys, legs: seq<ManagedOrder>, n: nat, i: nat)
    requires i < n <= |legs| && forall j, k :: 0 <= j < k < |legs| ==> legs[j].ref != legs[k].ref
    ensures legs[i].ref in WriteAhead(s, legs, n).mem.orders
            && WriteAhead(s, legs, n).mem.orders[legs[i].ref] == legs[i]
    ensures legs[i].ref in WriteAhead(s, legs, n).disk.rows
    ensures FromRow(legs[i].ref, WriteAhead(s, legs, n).disk.rows[legs[i].ref]) == Some(legs[i])
  {
    if i < n - 1 {
      WriteAheadWrites(s, legs, n - 1, i);
    } else {
      RowRoundTrip(legs[i], KeptPerm(WriteAhead(s, legs, n - 1).disk, legs[i].ref,
        OrElse(None, Lookup(WriteAhead(s, legs, n - 1).mem.perms, legs[i].ref))));
    }
  }

  /**
   * Write-ahead: when a bracket is about to go out, each of its three legs is already in memory and can
   * be rebuilt from disk, exactly as it is sent; and what is sent is a bracket with the sized prices.
   */
  lemma SentIsRecorded(s: Sys, now: real, order: SizedOrder, cycle: string, days: Days, i: nat)
    requires BeginBracket(s, now, order, cycle, days).1 == Sent && i < 3
    ensures var t := BeginBracket(s, now, order, cycle, days).0;
      var specs := BracketSpecs(order, cycle, days);
      && IsBracket(specs, order) && IsNamed(specs, order, cycle, days)
      && specs[i].ref in t.mem.orders && SameOrder(specs[i], t.mem.orders[specs[i].ref])
      && specs[i].ref in t.disk.rows
      && FromRow(specs[i].ref, t.disk.rows[specs[i].ref]) == Some(t.mem.orders[specs[i].ref])
      && t.mem.orders[specs[i].ref].parentRef == (if i == 0 then None else Some(specs[0].ref))
      && IsUnsent(t.mem.orders[specs[i].ref], order, cycle, i)
  {
    var legs := Legs(order, cycle, days);
    forall j, k | 0 <= j < k < |legs| ensures legs[j].ref != legs[k].ref { LegRefsDiffer(order, cycle, days, j, k); }
    WriteAheadWrites(Unblock(s, now), legs, 3, i);
    SpecsAreNamed(order, cycle, days);
  }

  // ------------------------------------------------------------------ the durable mirror

  /** Memory and disk agree on every restored field of every order. */
  ghost predicate Mirror(s: Sys) {
    && s.mem.orders.Keys == s.disk.rows.Keys
    && s.mem.perms.Keys <= s.mem.orders.Keys
    && (forall r :: r in s.mem.orders ==>
          && s.mem.orders[r].ref == r
          && IsOurs(r)
          && s.disk.rows[r] == ToRow(s.mem.orders[r], Lookup(s.mem.perms, r)))
    && (forall r :: r in s.mem.perms ==> s.mem.perms[r] != 0)
  }

  lemma StoreMirror(s: Sys, mo: ManagedOrder)
    requires Mirror(s) && IsOurs(mo.ref)
    ensures Mirror(Store(s, mo, None))
  {
  }

  lemma ApplyStatusMirror(s: Sys, st: Status)
    requires Mirror(s)
    ensures Mirror(ApplyStatus(s, st))
    ensures s.mem.orders.Keys <= ApplyStatus(s, st).mem.orders.Keys
  {
  }

  lemma LegsOurs(order: SizedOrder, cycle: string, days: Days)
    ensures forall i :: 0 <= i < 3 ==> IsOurs(Legs(order, cycle, days)[i].ref)
  {
    MakeRefOurs(days.entry, cycle, order.symbol, "ENTRY");
    MakeRefOurs(days.stop, cycle, order.symbol, "STOP");
    MakeRefOurs(days.target, cycle, order.symbol, "TARGET");
  }

  lemma {:induction false} WriteAheadMirror(s: Sys, legs: seq<ManagedOrder>, n: nat)
    requires Mirror(s) && n <= |legs|
    requires forall i :: 0 <= i < |legs| ==> IsOurs(legs[i].ref)
    ensures Mirror(WriteAhead(s, legs, n))
  {
    if n == 0 {
    } else {
      WriteAheadMirror(s, legs, n - 1);
      StoreMirror(WriteAhead(s, legs, n - 1), legs[n - 1]);
    }
  }

  lemma {:induction false} WriteAheadKeeps(s: Sys, legs: seq<ManagedOrder>, n: nat)
    requires n <= |legs|
    ensures WriteAhead(s, legs, n).disk.fills == s.disk.fills
    ensures WriteAhead(s, legs, n).mem.(orders := s.mem.orders) == s.mem
    ensures s.disk.rows.Keys <= WriteAhead(s, legs, n).disk.rows.Keys
    ensures forall i :: 0 <= i < n ==> legs[i].ref in WriteAhead(s, legs, n).disk.rows
  {
    if n == 0 {
    } else {
      WriteAheadKeeps(s, legs, n - 1);
    }
  }

  /** Executions never touch an order, a perm id, a block or a row. */
  lemma {:induction false} OnExecutionsKeeps(s: Sys, es: seq<Execution>)
    ensures OnExecutions(s, es).mem.orders == s.mem.orders
    ensures OnExecutions(s, es).mem.perms == s.mem.perms
    ensures OnExecutions(s, es).mem.blocked == s.mem.blocked
    ensures OnExecutions(s, es).disk.rows == s.disk.rows
  {
    if es == [] {
    } else {
      OnExecutionsKeeps(s, es[..|es| - 1]);
    }
  }

  lemma SomesExactly<T>(m: map<string, Option<T>>, all: map<string, T>)
    requires m.Keys == all.Keys && forall r :: r in m ==> m[r] == Some(all[r])
    ensures Somes(m) == all
  {
  }

  lemma StoredPermsExactly(rows: map<string, Row>, perms: map<string, int>)
    requires perms.Keys <= rows.Keys
    requires forall r :: r in rows ==> rows[r].permId == Lookup(perms, r)
    requires forall r :: r in perms ==> perms[r] != 0
    ensures StoredPerms(rows, rows.Keys) == perms
  {
    var found := StoredPerms(rows, rows.Keys);
    assert found.Keys == perms.Keys;
  }

  /** A crash followed by a load gives back exactly the orders and perm ids that were in memory. */
  lemma ReloadRestores(s: Sys)
    requires Mirror(s)
    ensures Load(Sys(FRESH, s.disk)).mem.orders == s.mem.orders
    ensures Load(Sys(FRESH, s.disk)).mem.perms == s.mem.perms
    ensures Load(Sys(FRESH, s.disk)).disk == s.disk
  {
    forall r | r in s.mem.orders
      ensures FromRow(r, s.disk.rows[r]) == Some(s.mem.orders[r])
    {
      RowRoundTrip(s.mem.orders[r], Lookup(s.mem.perms, r));
    }
    SomesExactly(Rebuild(s.disk.rows), s.mem.orders);
    StoredPermsExactly(s.disk.rows, s.mem.perms);
    assert map[] + s.mem.orders == s.mem.orders && map[] + s.mem.perms == s.mem.perms;
  }
}
