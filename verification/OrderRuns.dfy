/**
 * Runs of the order manager: placements, broker answers, reconciliation, and crashes at any point,
 * each followed by a restart from the stored rows.
 */
module OrderRuns {
  import opened Common
  import opened Domain
  import opened Refs
  import opened OrderModel
  import opened Reconciliation

  /** One entry order handed to the broker. */
  datatype Handed = Handed(ref: string, day: string, cycle: string, symbol: string, at: real)

  datatype World = World(s: Sys, clock: real, handed: seq<Handed>)

  datatype Step =
    | Idle(now: real)
    | Place(now: real, order: SizedOrder, cycle: string, days: Days)
    | Refused(now: real, symbol: string)      // a send raised, or a protective stop could not be placed
    | Reported(now: real, st: Status)         // the answer to a send, or a status callback
    | Executed(now: real, e: Execution)
    | Resync(now: real, open: seq<Status>, completed: seq<Status>)
    | WriteSingle(now: real, mo: ManagedOrder) // the row written before an exit or a protective stop is sent
    | Crash(during: Step, disk: Disk)         // the process dies inside `during`, then restarts

  /** The system after one step that is not a crash. */
  function Effect(s: Sys, step: Step): Sys {
    match step
    case Idle(_) => s
    case Place(now, order, cycle, days) => BeginBracket(s, now, order, cycle, days).0
    case Refused(now, symbol) => Block(s, symbol, now)
    case Reported(_, st) => ApplyStatus(s, st)
    case Executed(_, e) => OnExecution(s, e)
    case Resync(now, open, completed) => Absorb(Unblock(s, now), open, completed)
    case WriteSingle(_, mo) => Store(s, mo, None)
    case Crash(_, _) => s
  }

  /** A row that `load_from_store` can rebuild. */
  predicate Rebuildable(ref: string, row: Row) {
    IsOurs(ref) && ParseState(row.state).Some? && row.filled.Some? && row.permId != Some(0)
  }

  ghost predicate Sound(d: Disk) {
    forall r :: r in d.rows ==> Rebuildable(r, d.rows[r])
  }

  /** `d` holds some of the writes that lead from `before` to `after`, and loses none of the old rows. */
  ghost predicate Torn(before: Disk, after: Disk, d: Disk) {
    && before.rows.Keys <= d.rows.Keys <= after.rows.Keys
    && before.fills.Keys <= d.fills.Keys <= after.fills.Keys
    && (forall x :: x in d.fills ==> d.fills[x] == after.fills[x])
    && Sound(d)
  }

  function When(step: Step): real {
    match step
    case Crash(during, _) => if during.Crash? then 0.0 else During(during)
    case _ => During(step)
  }

  function During(step: Step): real {
    if step.Crash? then 0.0 else step.now
  }

  ghost predicate Enabled(w: World, step: Step) {
    && w.clock <= When(step)
    && (step.WriteSingle? ==> IsOurs(step.mo.ref))
    && (step.Crash? ==>
          && !step.during.Crash?
          && (step.during.WriteSingle? ==> IsOurs(step.during.mo.ref))
          && Torn(w.s.disk, Effect(w.s, step.during).disk, step.disk))
  }

  function HandOver(step: Step): Handed
    requires step.Place?
  {
    Handed(EntryRef(step.days, step.cycle, step.order.symbol), step.days.entry, step.cycle, step.order.symbol, step.now)
  }

  function Next(w: World, step: Step): World {
    var s' := if step.Crash? then Load(Sys(FRESH, step.disk)) else Effect(w.s, step);
    var sent := step.Place? && BeginBracket(w.s, step.now, step.order, step.cycle, step.days).1 == Sent;
    World(s', When(step),
          if sent then w.handed + [HandOver(step)] else w.handed)
  }

  function After(w: World, steps: seq<Step>): World {
    if steps == [] then w else Next(After(w, steps[..|steps| - 1]), steps[|steps| - 1])
  }

  ghost predicate Legal(w: World, steps: seq<Step>) {
    steps == [] || (Legal(w, steps[..|steps| - 1]) && Enabled(After(w, steps[..|steps| - 1]), steps[|steps| - 1]))
  }

  /** A process that has just restarted on the given store. */
  function Boot(disk: Disk, clock: real): World {
    World(Load(Sys(FRESH, disk)), clock, [])
  }

  // ------------------------------------------------------------------ runs one after another

  lemma {:induction false} AfterConcat(w: World, first: seq<Step>, second: seq<Step>)
    ensures After(w, first + second) == After(After(w, first), second)
    ensures Legal(w, first + second) <==> Legal(w, first) && Legal(After(w, first), second)
  {
    if second == [] {
      assert first + second == first;
    } else {
      var n := |second| - 1;
      assert (first + second)[..|first + second| - 1] == first + second[..n];
      AfterConcat(w, first, second[..n]);
    }
  }

  lemma AfterOne(w: World, step: Step)
    ensures After(w, [step]) == Next(w, step) && (Legal(w, [step]) <==> Enabled(w, step))
  {
    assert [step][..0] == [];
  }

  // ------------------------------------------------------------------ invariants

  /** Every entry handed over is among the stored refs, and none was handed over twice. */
  ghost predicate HandedOnce(handed: seq<Handed>, stored: set<string>) {
    && (forall i :: 0 <= i < |handed| ==> handed[i].ref in stored)
    && (forall i, j :: 0 <= i < j < |handed| ==> handed[i].ref != handed[j].ref)
  }

  lemma HandedExtends(handed: seq<Handed>, h: Handed, before: set<string>, after: set<string>)
    requires HandedOnce(handed, before) && before <= after
    requires h.ref !in before && h.ref in after
    ensures HandedOnce(handed + [h], after)
  {
  }

  ghost predicate Inv(w: World) {
    && Good(w.s)
    && HandedOnce(w.handed, w.s.disk.rows.Keys)
    && (forall h :: h in w.handed ==> h.ref == MakeRef(h.day, h.cycle, h.symbol, "ENTRY"))
  }

  lemma RebuildRow(ref: string, row: Row)
    requires Rebuildable(ref, row)
    ensures FromRow(ref, row).Some? && FromRow(ref, row).value.ref == ref
    ensures ToRow(FromRow(ref, row).value, row.permId) == row
  {
  }

  /** Loading a sound store into a fresh process starts in the mirrored state. */
  lemma LoadMirrors(d: Disk)
    requires Sound(d)
    ensures Mirror(Load(Sys(FRESH, d)))
    ensures Load(Sys(FRESH, d)).disk == d
  {
    var good := Somes(Rebuild(d.rows));
    var perms := StoredPerms(d.rows, good.Keys);
    forall r | r in d.rows
      ensures r in good && good[r].ref == r && d.rows[r] == ToRow(good[r], Lookup(perms, r))
    {
      RebuildRow(r, d.rows[r]);
      assert r in good;
      assert Lookup(perms, r) == d.rows[r].permId;
    }
    assert good.Keys == d.rows.Keys;
    assert map[] + good == good && map[] + perms == perms;
  }

  /** Memory mirrors disk, and every fill in memory is one seen execution, stored. */
  ghost predicate Good(s: Sys) {
    && Mirror(s)
    && s.mem.seen <= s.disk.fills.Keys
    && |s.mem.fills| == |s.mem.seen|
  }

  /** Nothing stored is lost, and no stored fill changes. */
  ghost predicate Grows(before: Disk, after: Disk) {
    && before.rows.Keys <= after.rows.Keys
    && (forall x :: x in before.fills ==> x in after.fills && after.fills[x] == before.fills[x])
  }

  lemma UnblockKeeps(s: Sys, now: real)
    requires Good(s)
    ensures Good(Unblock(s, now)) && Unblock(s, now).disk == s.disk
  {
  }

  lemma PlaceKeeps(s: Sys, now: real, order: SizedOrder, cycle: string, days: Days)
    requires Good(s)
    ensures Good(BeginBracket(s, now, order, cycle, days).0)
    ensures Grows(s.disk, BeginBracket(s, now, order, cycle, days).0.disk)
    ensures BeginBracket(s, now, order, cycle, days).1 == Sent ==>
              && EntryRef(days, cycle, order.symbol) !in s.disk.rows
              && EntryRef(days, cycle, order.symbol) in BeginBracket(s, now, order, cycle, days).0.disk.rows
  {
    var s0 := Unblock(s, now);
    var legs := Legs(order, cycle, days);
    UnblockKeeps(s, now);
    LegsOurs(order, cycle, days);
    WriteAheadMirror(s0, legs, 3);
    WriteAheadKeeps(s0, legs, 3);
    assert legs[0].ref == EntryRef(days, cycle, order.symbol);
  }

  lemma ResyncKeeps(s: Sys, now: real, open: seq<Status>, completed: seq<Status>)
    requires Good(s)
    ensures Good(Absorb(Unblock(s, now), open, completed))
    ensures Grows(s.disk, Absorb(Unblock(s, now), open, completed).disk)
  {
    UnblockKeeps(s, now);
    AbsorbMirror(Unblock(s, now), open, completed);
  }

  lemma ReportKeeps(s: Sys, st: Status)
    requires Good(s)
    ensures Good(ApplyStatus(s, st)) && Grows(s.disk, ApplyStatus(s, st).disk)
  {
    ApplyStatusMirror(s, st);
  }

  lemma ExecutionKeeps(s: Sys, e: Execution)
    requires Good(s)
    ensures Good(OnExecution(s, e)) && Grows(s.disk, OnExecution(s, e).disk)
  {
  }

  /** No step loses a stored order or a stored fill, and every step keeps memory and disk in step. */
  lemma EffectKeeps(s: Sys, step: Step)
    requires Good(s) && !step.Crash?
    requires step.WriteSingle? ==> IsOurs(step.mo.ref)
    ensures Good(Effect(s, step)) && Grows(s.disk, Effect(s, step).disk)
  {
    match step
    case Place(now, order, cycle, days) => PlaceKeeps(s, now, order, cycle, days);
    case Reported(_, st) => ReportKeeps(s, st);
    case Executed(_, e) => ExecutionKeeps(s, e);
    case Resync(now, open, completed) => ResyncKeeps(s, now, open, completed);
    case WriteSingle(_, mo) => StoreMirror(s, mo);
    case _ =>
  }

  lemma StepGrows(w: World, step: Step)
    requires Good(w.s) && Enabled(w, step)
    ensures Good(Next(w, step).s) && Grows(w.s.disk, Next(w, step).s.disk)
  {
    if step.Crash? {
      EffectKeeps(w.s, step.during);
      LoadMirrors(step.disk);
    } else {
      EffectKeeps(w.s, step);
    }
  }

  lemma NextKeepsInv(w: World, step: Step)
    requires Inv(w) && Enabled(w, step)
    ensures Inv(Next(w, step)) && Grows(w.s.disk, Next(w, step).s.disk)
  {
    StepGrows(w, step);
    if step.Place? && BeginBracket(w.s, step.now, step.order, step.cycle, step.days).1 == Sent {
      PlaceKeeps(w.s, step.now, step.order, step.cycle, step.days);
      HandedExtends(w.handed, HandOver(step), w.s.disk.rows.Keys, Next(w, step).s.disk.rows.Keys);
    }
  }

  lemma {:induction false} RunKeepsInv(w: World, steps: seq<Step>)
    requires Inv(w) && Legal(w, steps)
    ensures Inv(After(w, steps)) && Grows(w.s.disk, After(w, steps).s.disk)
  {
    if steps == [] {
    } else {
      RunKeepsInv(w, steps[..|steps| - 1]);
      NextKeepsInv(After(w, steps[..|steps| - 1]), steps[|steps| - 1]);
    }
  }

  lemma BootInv(disk: Disk, clock: real)
    requires Sound(disk)
    ensures Inv(Boot(disk, clock))
  {
    LoadMirrors(disk);
  }

  // ------------------------------------------------------------------ main results

  /**
   * At most once. Whatever is placed, refused, reported, reconciled or lost in a crash, no entry
   * (day, cycle, symbol) is handed to the broker twice.
   */
  lemma AtMostOnce(disk: Disk, clock: real, steps: seq<Step>, i: nat, j: nat)
    requires Sound(disk) && Legal(Boot(disk, clock), steps)
    requires i < j < |After(Boot(disk, clock), steps).handed|
    ensures var h := After(Boot(disk, clock), steps).handed;
            !(h[i].day == h[j].day && CycleName(h[i].cycle) == CycleName(h[j].cycle) && h[i].symbol == h[j].symbol)
  {
    BootInv(disk, clock);
    RunKeepsInv(Boot(disk, clock), steps);
    var h := After(Boot(disk, clock), steps).handed;
    assert h[i].ref != h[j].ref && h[i] in h && h[j] in h;
  }

  /** Every entry that was ever handed over has its row on disk, so a restart still knows it. */
  lemma SentIsStored(disk: Disk, clock: real, steps: seq<Step>, i: nat)
    requires Sound(disk) && Legal(Boot(disk, clock), steps)
    requires i < |After(Boot(disk, clock), steps).handed|
    ensures var w := After(Boot(disk, clock), steps); w.handed[i].ref in w.s.disk.rows
  {
    BootInv(disk, clock);
    RunKeepsInv(Boot(disk, clock), steps);
  }

  /** The durable mirror: in every reachable state a crash and a reload give the orders and perm ids back. */
  lemma CrashLosesNothing(disk: Disk, clock: real, steps: seq<Step>)
    requires Sound(disk) && Legal(Boot(disk, clock), steps)
    ensures var s := After(Boot(disk, clock), steps).s;
            && Mirror(s)
            && Load(Sys(FRESH, s.disk)).mem.orders == s.mem.orders
            && Load(Sys(FRESH, s.disk)).mem.perms == s.mem.perms
  {
    BootInv(disk, clock);
    RunKeepsInv(Boot(disk, clock), steps);
    ReloadRestores(After(Boot(disk, clock), steps).s);
  }

  // ------------------------------------------------------------------ fills

  function Ids(es: seq<Execution>): set<string> {
    set e | e in es :: e.execId
  }

  /** The first execution under each id since the last restart, in the order they came. */
  function FirstExecutions(steps: seq<Step>): seq<Execution> {
    if steps == [] then []
    else
      var before, last := FirstExecutions(steps[..|steps| - 1]), steps[|steps| - 1];
      if last.Crash? then []
      else if last.Executed? && last.e.execId !in Ids(before) then before + [last.e]
      else before
  }

  /** The fills on disk at the last restart. */
  function StoredAtRestart(disk: Disk, steps: seq<Step>): map<string, Fill> {
    if steps == [] then disk.fills
    else
      var last := steps[|steps| - 1];
      if last.Crash? then last.disk.fills else StoredAtRestart(disk, steps[..|steps| - 1])
  }

  ghost predicate DistinctExecIds(es: seq<Execution>) {
    forall i, j :: 0 <= i < j < |es| ==> es[i].execId != es[j].execId
  }

  /** In memory: the fills of `es`, in order, each under an id of its own. */
  ghost predicate CountedInMemory(mem: Memory, es: seq<Execution>) {
    && DistinctExecIds(es) && mem.seen == Ids(es)
    && |mem.fills| == |es| && (forall i :: 0 <= i < |es| ==> mem.fills[i] == es[i].fill)
  }

  /** On disk: what was stored before, unchanged, and the other fills of `es`, under their ids. */
  ghost predicate CountedOnDisk(fills: map<string, Fill>, es: seq<Execution>, stored: map<string, Fill>) {
    && fills.Keys == stored.Keys + Ids(es)
    && (forall x :: x in stored ==> fills[x] == stored[x])
    && (forall e :: e in es && e.execId !in stored ==> e.execId in fills && fills[e.execId] == e.fill)
  }

  /** What a process that restarted on `stored` holds and has written once `es` came. */
  ghost predicate FillsCounted(s: Sys, es: seq<Execution>, stored: map<string, Fill>) {
    CountedInMemory(s.mem, es) && CountedOnDisk(s.disk.fills, es, stored)
  }

  lemma IdsGrow(es: seq<Execution>, e: Execution)
    ensures Ids(es + [e]) == Ids(es) + {e.execId}
  {
    assert forall x :: x in es + [e] <==> x in es || x == e;
    assert e in es + [e];
  }

  lemma OneMoreInMemory(mem: Memory, es: seq<Execution>, e: Execution)
    requires CountedInMemory(mem, es) && e.execId !in mem.seen
    ensures CountedInMemory(mem.(seen := mem.seen + {e.execId}, fills := mem.fills + [e.fill]), es + [e])
  {
    IdsGrow(es, e);
    assert forall i :: 0 <= i < |es| ==> es[i] in es;
  }

  lemma OneMoreOnDisk(disk: Disk, es: seq<Execution>, stored: map<string, Fill>, e: Execution)
    requires CountedOnDisk(disk.fills, es, stored) && e.execId !in Ids(es)
    ensures CountedOnDisk(SaveFill(disk, e.execId, e.fill).fills, es + [e], stored)
  {
    IdsGrow(es, e);
    var after := SaveFill(disk, e.execId, e.fill).fills;
    assert after.Keys == disk.fills.Keys + {e.execId};
    forall x | x in es + [e] && x.execId !in stored ensures x.execId in after && after[x.execId] == x.fill {
      if x in es { assert x.execId in Ids(es); }
    }
  }

  lemma ExecutionCounts(s: Sys, es: seq<Execution>, stored: map<string, Fill>, e: Execution)
    requires FillsCounted(s, es, stored)
    ensures FillsCounted(OnExecution(s, e), if e.execId in Ids(es) then es else es + [e], stored)
  {
    if e.execId !in Ids(es) {
      OneMoreInMemory(s.mem, es, e);
      OneMoreOnDisk(s.disk, es, stored, e);
    }
  }

  /** Only an execution touches the fills. */
  lemma EffectKeepsFills(s: Sys, step: Step)
    requires Mirror(s) && !step.Crash? && !step.Executed?
    ensures Effect(s, step).mem.seen == s.mem.seen && Effect(s, step).mem.fills == s.mem.fills
    ensures Effect(s, step).disk.fills == s.disk.fills
  {
    match step
    case Place(now, order, cycle, days) => WriteAheadKeeps(Unblock(s, now), Legs(order, cycle, days), 3);
    case Resync(now, open, completed) =>
      assert Mirror(Unblock(s, now));
      AbsorbMirror(Unblock(s, now), open, completed);
    case _ =>
  }

  lemma StepCounts(w: World, es: seq<Execution>, stored: map<string, Fill>, step: Step)
    requires Good(w.s) && FillsCounted(w.s, es, stored) && !step.Crash?
    ensures FillsCounted(
      Next(w, step).s, if step.Executed? && step.e.execId !in Ids(es) then es + [step.e] else es, stored)
  {
    if step.Executed? {
      ExecutionCounts(w.s, es, stored, step.e);
    } else {
      EffectKeepsFills(w.s, step);
    }
  }

  lemma RestartCounts(disk: Disk)
    requires Sound(disk)
    ensures FillsCounted(Load(Sys(FRESH, disk)), [], disk.fills)
  {
    LoadMirrors(disk);
  }

  lemma {:induction false} RunCounts(disk: Disk, clock: real, steps: seq<Step>)
    requires Sound(disk) && Legal(Boot(disk, clock), steps)
    ensures FillsCounted(After(Boot(disk, clock), steps).s, FirstExecutions(steps), StoredAtRestart(disk, steps))
  {
    if steps == [] {
      RestartCounts(disk);
    } else {
      var n := |steps| - 1;
      if steps[n].Crash? {
        RestartCounts(steps[n].disk);
      } else {
        RunCounts(disk, clock, steps[..n]);
        BootInv(disk, clock);
        RunKeepsInv(Boot(disk, clock), steps[..n]);
        StepCounts(After(Boot(disk, clock), steps[..n]), FirstExecutions(steps[..n]), StoredAtRestart(disk, steps),
                   steps[n]);
      }
    }
  }

  /**
   * Fills are counted exactly once. The fills a process holds are, in order, those of the first execution
   * under each id since it restarted; on disk are those ids and the ones stored at the restart and no
   * others, each under the fill first stored; and a stored fill is never changed or lost by anything that
   * follows.
   */
  lemma FillsExactlyOnce(disk: Disk, clock: real, steps: seq<Step>, more: seq<Step>)
    requires Sound(disk) && Legal(Boot(disk, clock), steps)
    requires Legal(After(Boot(disk, clock), steps), more)
    ensures var w := After(Boot(disk, clock), steps);
            && FillsCounted(w.s, FirstExecutions(steps), StoredAtRestart(disk, steps))
            && Grows(w.s.disk, After(w, more).s.disk)
  {
    RunCounts(disk, clock, steps);
    BootInv(disk, clock);
    RunKeepsInv(Boot(disk, clock), steps);
    RunKeepsInv(After(Boot(disk, clock), steps), more);
  }

  /**
   * A bracket is sent exactly when its symbol has no unexpired block and no stored order is the entry
   * of the same day, cycle and symbol: nothing else is mistaken for a duplicate.
   */
  lemma SentExactlyWhen(s: Sys, now: real, order: SizedOrder, cycle: string, days: Days)
    requires Mirror(s)
    requires ColonFree(days.entry) && ColonFree(cycle) && ColonFree(order.symbol)
    ensures BeginBracket(s, now, order, cycle, days).1 == Sent
       <==> && !(order.symbol in s.mem.blocked && now - s.mem.blocked[order.symbol] <= 600.0)
            && !(exists r :: r in s.disk.rows
                   && ParseRef(r) == Some(Parsed(days.entry, CycleName(cycle), order.symbol, "ENTRY")))
  {
    var ref := EntryRef(days, cycle, order.symbol);
    var p := Parsed(days.entry, CycleName(cycle), order.symbol, "ENTRY");
    assert ColonFree("ENTRY");
    ParseMake(days.entry, cycle, order.symbol, "ENTRY");
    forall r | r in s.disk.rows && ParseRef(r) == Some(p) ensures r == ref {
      MakeParse(r);
      MakeRefIsJoin(days.entry, cycle, order.symbol, "ENTRY");
      MakeRefIsJoin(p.day, p.cycle, p.symbol, p.kind);
    }
  }

  // ------------------------------------------------------------------ the 600 second block

  /** Either the block set at `t0` still stands, or it has run out. */
  ghost predicate BlockStands(w: World, symbol: string, t0: real) {
    || w.clock - t0 > 600.0
    || (symbol in w.s.mem.blocked && w.s.mem.blocked[symbol] >= t0)
  }

  lemma EffectKeepsBlock(s: Sys, step: Step, clock: real, symbol: string, t0: real)
    requires Mirror(s) && !step.Crash? && step.now >= clock >= t0
    requires clock - t0 > 600.0 || (symbol in s.mem.blocked && s.mem.blocked[symbol] >= t0)
    ensures step.now - t0 > 600.0
         || (symbol in Effect(s, step).mem.blocked && Effect(s, step).mem.blocked[symbol] >= t0)
  {
    match step
    case Place(now, order, cycle, days) =>
      WriteAheadKeeps(Unblock(s, now), Legs(order, cycle, days), 3);
    case Resync(now, open, completed) =>
      assert Mirror(Unblock(s, now));
      AbsorbMirror(Unblock(s, now), open, completed);
    case _ =>
  }

  /**
   * After a failed send at `t0`, and until the process restarts, every bracket handed over for that
   * symbol comes more than 600 seconds later, whatever else happens in between.
   */
  lemma {:induction false} FailureBlocks(w: World, symbol: string, t0: real, steps: seq<Step>)
    requires Inv(w) && w.clock >= t0 && BlockStands(w, symbol, t0)
    requires Legal(w, steps) && forall k :: 0 <= k < |steps| ==> !steps[k].Crash?
    ensures var w' := After(w, steps);
            && w'.clock >= t0 && BlockStands(w', symbol, t0)
            && |w.handed| <= |w'.handed|
            && (forall i :: |w.handed| <= i < |w'.handed| && w'.handed[i].symbol == symbol
                  ==> w'.handed[i].at - t0 > 600.0)
  {
    if steps == [] {
    } else {
      var n := |steps| - 1;
      FailureBlocks(w, symbol, t0, steps[..n]);
      RunKeepsInv(w, steps[..n]);
      var v := After(w, steps[..n]);
      EffectKeepsBlock(v.s, steps[n], v.clock, symbol, t0);
    }
  }

  /** The same, read from the failing send itself. */
  lemma RefusedThenQuiet(w: World, now: real, symbol: string, steps: seq<Step>, i: nat)
    requires Inv(w) && Enabled(w, Refused(now, symbol))
    requires Legal(Next(w, Refused(now, symbol)), steps) && forall k :: 0 <= k < |steps| ==> !steps[k].Crash?
    requires |w.handed| <= i < |After(Next(w, Refused(now, symbol)), steps).handed|
    requires After(Next(w, Refused(now, symbol)), steps).handed[i].symbol == symbol
    ensures After(Next(w, Refused(now, symbol)), steps).handed[i].at - now > 600.0
  {
    NextKeepsInv(w, Refused(now, symbol));
    FailureBlocks(Next(w, Refused(now, symbol)), symbol, now, steps);
  }
}
