/** A maybe-sent order must be resolved before its symbol trades again. */
module Resolution {
  import opened Common
  import opened OrderModel
  import opened OrderRuns

  /** The symbols with an order that works, as the gate is told. */
  function WorkingSymbols(s: Sys): set<string> {
    set r | r in s.mem.orders && s.mem.orders[r].state.IsWorking() :: s.mem.orders[r].symbol
  }

  /** The order under this ref works, in this symbol. */
  predicate Open(s: Sys, ref: string, symbol: string) {
    ref in s.mem.orders && s.mem.orders[ref].state.IsWorking() && s.mem.orders[ref].symbol == symbol
  }

  predicate IsSend(s: Sys, step: Step) {
    step.Place? && BeginBracket(s, step.now, step.order, step.cycle, step.days).1 == Sent
  }

  /** Can this step write the order under `ref`? A status for it, a pass, its own write-ahead, or a crash during one. */
  predicate Touches(s: Sys, step: Step, ref: string)
    decreases step
  {
    match step
    case Place(_, order, cycle, days) =>
      IsSend(s, step) && exists x :: 0 <= x < 3 && Legs(order, cycle, days)[x].ref == ref
    case Reported(_, st) => st.ref == ref
    case Resync(_, _, _) => true
    case WriteSingle(_, mo) => mo.ref == ref
    case Crash(during, _) => Touches(s, during, ref)
    case _ => false
  }

  /** The step that took the order under `ref` out of work. */
  predicate Ends(w: World, step: Step, ref: string, symbol: string) {
    Touches(w.s, step, ref) && !Open(Next(w, step).s, ref, symbol)
  }

  /** Rows that an interrupted step does not write are on disk as they were. */
  ghost predicate Intact(w: World, step: Step) {
    step.Crash? ==> forall r :: r in w.s.disk.rows && r in step.disk.rows && !Touches(w.s, step, r) ==>
                      step.disk.rows[r] == w.s.disk.rows[r]
  }

  /** No bracket goes out in a symbol with an order that works: the gate's check 20, just before the placement. */
  ghost predicate Gated(w: World, step: Step) {
    IsSend(w.s, step) ==> step.order.symbol !in WorkingSymbols(w.s)
  }

  ghost predicate GatedRun(w: World, steps: seq<Step>) {
    steps == [] ||
    var v := After(w, steps[..|steps| - 1]);
    GatedRun(w, steps[..|steps| - 1]) && Gated(v, steps[|steps| - 1]) && Intact(v, steps[|steps| - 1])
  }

  lemma GatedSnoc(w: World, steps: seq<Step>, step: Step)
    requires GatedRun(w, steps) && Gated(After(w, steps), step) && Intact(After(w, steps), step)
    ensures GatedRun(w, steps + [step])
  {
    assert (steps + [step])[..|steps|] == steps;
  }

  lemma {:induction false} GatedConcat(w: World, first: seq<Step>, second: seq<Step>)
    requires GatedRun(w, first) && GatedRun(After(w, first), second)
    ensures GatedRun(w, first + second)
  {
    if second == [] {
      assert first + second == first;
    } else {
      var n := |second| - 1;
      assert first + second == (first + second[..n]) + [second[n]];
      GatedConcat(w, first, second[..n]);
      AfterConcat(w, first, second[..n]);
      GatedSnoc(w, first + second[..n], second[n]);
    }
  }

  lemma GatedOne(w: World, step: Step)
    requires Gated(w, step) && Intact(w, step)
    ensures GatedRun(w, [step])
  {
    assert [step][..0] == [];
  }

  // ------------------------------------------------------------------ untouched orders keep working

  lemma {:induction false} WriteAheadSpares(s: Sys, legs: seq<ManagedOrder>, n: nat, ref: string)
    requires n <= |legs| && forall x :: 0 <= x < n ==> legs[x].ref != ref
    ensures ref in s.mem.orders ==>
              ref in WriteAhead(s, legs, n).mem.orders && WriteAhead(s, legs, n).mem.orders[ref] == s.mem.orders[ref]
  {
    if n == 0 {
    } else {
      WriteAheadSpares(s, legs, n - 1, ref);
    }
  }

  lemma UntouchedStaysOpen(s: Sys, step: Step, ref: string, symbol: string)
    requires Mirror(s) && Open(s, ref, symbol) && !Touches(s, step, ref) && !step.Crash?
    ensures Open(Effect(s, step), ref, symbol)
  {
    if IsSend(s, step) {
      WriteAheadSpares(Unblock(s, step.now), Legs(step.order, step.cycle, step.days), 3, ref);
    }
  }

  /** A row that was not written gives the order back as it was. */
  lemma RestartKeepsOpen(w: World, step: Step, ref: string, symbol: string)
    requires Good(w.s) && Enabled(w, step) && step.Crash? && Intact(w, step)
    requires Open(w.s, ref, symbol) && !Touches(w.s, step, ref)
    ensures Open(Next(w, step).s, ref, symbol)
  {
    RowRoundTrip(w.s.mem.orders[ref], Lookup(w.s.mem.perms, ref));
    assert step.disk.rows[ref] == w.s.disk.rows[ref];
    assert Rebuild(step.disk.rows)[ref] == Some(w.s.mem.orders[ref]);
  }

  lemma NextKeepsOpen(w: World, step: Step, ref: string, symbol: string)
    requires Good(w.s) && Enabled(w, step) && Intact(w, step)
    requires Open(w.s, ref, symbol) && !Ends(w, step, ref, symbol)
    ensures Open(Next(w, step).s, ref, symbol)
  {
    if Touches(w.s, step, ref) {
    } else if step.Crash? {
      RestartKeepsOpen(w, step, ref, symbol);
    } else {
      UntouchedStaysOpen(w.s, step, ref, symbol);
    }
  }

  /** The state before step `k`, and what is known of the step. */
  lemma {:induction false} RunAt(w: World, steps: seq<Step>, k: nat)
    requires Inv(w) && Legal(w, steps) && GatedRun(w, steps) && k < |steps|
    ensures var v := After(w, steps[..k]);
      && Inv(v) && Enabled(v, steps[k]) && Gated(v, steps[k]) && Intact(v, steps[k])
      && After(w, steps[..k + 1]) == Next(v, steps[k])
    decreases |steps|
  {
    var n := |steps| - 1;
    assert steps[..k + 1][..k] == steps[..k];
    if k == n {
      RunKeepsInv(w, steps[..n]);
    } else {
      RunAt(w, steps[..n], k);
      assert steps[..n][..k] == steps[..k] && steps[..n][..k + 1] == steps[..k + 1];
    }
  }

  predicate OpenAt(w: World, steps: seq<Step>, k: nat, ref: string, symbol: string)
    requires k <= |steps|
  {
    Open(After(w, steps[..k]).s, ref, symbol)
  }

  predicate EndsAt(w: World, steps: seq<Step>, k: nat, ref: string, symbol: string)
    requires k < |steps|
  {
    Ends(After(w, steps[..k]), steps[k], ref, symbol)
  }

  lemma StepKeepsOpen(w: World, steps: seq<Step>, k: nat, ref: string, symbol: string)
    requires Inv(w) && Legal(w, steps) && GatedRun(w, steps) && k < |steps|
    requires OpenAt(w, steps, k, ref, symbol) && !EndsAt(w, steps, k, ref, symbol)
    ensures OpenAt(w, steps, k + 1, ref, symbol)
  {
    RunAt(w, steps, k);
    NextKeepsOpen(After(w, steps[..k]), steps[k], ref, symbol);
  }

  predicate KeepsAt(w: World, steps: seq<Step>, k: nat, ref: string, symbol: string)
    requires k < |steps|
  {
    OpenAt(w, steps, k, ref, symbol) && !EndsAt(w, steps, k, ref, symbol) ==> OpenAt(w, steps, k + 1, ref, symbol)
  }

  lemma EachStepKeeps(w: World, steps: seq<Step>, ref: string, symbol: string)
    requires Inv(w) && Legal(w, steps) && GatedRun(w, steps)
    ensures forall k :: 0 <= k < |steps| ==> KeepsAt(w, steps, k, ref, symbol)
  {
    forall k | 0 <= k < |steps| ensures KeepsAt(w, steps, k, ref, symbol) {
      if OpenAt(w, steps, k, ref, symbol) && !EndsAt(w, steps, k, ref, symbol) {
        StepKeepsOpen(w, steps, k, ref, symbol);
      }
    }
  }

  /** An order that works keeps working, crashes or not, until a step ends it. */
  lemma {:induction false} OpenUntilEnded(w: World, steps: seq<Step>, lo: nat, hi: nat, ref: string, symbol: string)
    requires lo <= hi <= |steps| && OpenAt(w, steps, lo, ref, symbol)
    requires forall k :: 0 <= k < |steps| ==> KeepsAt(w, steps, k, ref, symbol)
    ensures OpenAt(w, steps, hi, ref, symbol) || exists k :: lo <= k < hi && EndsAt(w, steps, k, ref, symbol)
  {
    if hi == lo {
    } else {
      OpenUntilEnded(w, steps, lo, hi - 1, ref, symbol);
      assert KeepsAt(w, steps, hi - 1, ref, symbol);
    }
  }

  // ------------------------------------------------------------------ main results

  /** A bracket that goes out leaves each of its legs working. */
  lemma SentIsOpen(w: World, step: Step, x: nat)
    requires IsSend(w.s, step) && x < 3
    ensures Open(Next(w, step).s, Legs(step.order, step.cycle, step.days)[x].ref, step.order.symbol)
  {
    SentIsRecorded(w.s, step.now, step.order, step.cycle, step.days, x);
    var legs := Legs(step.order, step.cycle, step.days);
    forall i, j | 0 <= i < j < 3 ensures legs[i].ref != legs[j].ref {
      LegRefsDiffer(step.order, step.cycle, step.days, i, j);
    }
    WriteAheadWrites(Unblock(w.s, step.now), legs, 3, x);
  }

  lemma OpenStopsSends(w: World, step: Step, ref: string, symbol: string)
    requires Gated(w, step) && Open(w.s, ref, symbol)
    ensures !(IsSend(w.s, step) && step.order.symbol == symbol)
  {
    assert symbol in WorkingSymbols(w.s);
  }

  /** From then on, in any run, each leg works until a step ends it. */
  lemma SentUntilEnded(disk: Disk, clock: real, steps: seq<Step>, p: nat, q: nat, x: nat)
    requires Sound(disk) && Legal(Boot(disk, clock), steps) && GatedRun(Boot(disk, clock), steps)
    requires p < q <= |steps| && x < 3 && IsSend(After(Boot(disk, clock), steps[..p]).s, steps[p])
    ensures var leg, symbol := Legs(steps[p].order, steps[p].cycle, steps[p].days)[x].ref, steps[p].order.symbol;
      || OpenAt(Boot(disk, clock), steps, q, leg, symbol)
      || exists k :: p < k < q && EndsAt(Boot(disk, clock), steps, k, leg, symbol)
  {
    var w, symbol := Boot(disk, clock), steps[p].order.symbol;
    var leg := Legs(steps[p].order, steps[p].cycle, steps[p].days)[x].ref;
    BootInv(disk, clock);
    RunAt(w, steps, p);
    SentIsOpen(After(w, steps[..p]), steps[p], x);
    EachStepKeeps(w, steps, leg, symbol);
    OpenUntilEnded(w, steps, p + 1, q, leg, symbol);
  }

  /**
   * Over any run with failures, reports, passes and crashes at any point, in which the gate is told what
   * works: when a second bracket goes out in a symbol, each leg of the first was taken out of work in
   * between, by a status for it, a pass, or a write under its own ref.
   */
  lemma ResolvedInBetween(disk: Disk, clock: real, steps: seq<Step>, p: nat, q: nat, x: nat)
    requires Sound(disk) && Legal(Boot(disk, clock), steps) && GatedRun(Boot(disk, clock), steps)
    requires p < q < |steps| && x < 3
    requires IsSend(After(Boot(disk, clock), steps[..p]).s, steps[p])
    requires IsSend(After(Boot(disk, clock), steps[..q]).s, steps[q])
    requires steps[p].order.symbol == steps[q].order.symbol
    ensures var leg := Legs(steps[p].order, steps[p].cycle, steps[p].days)[x].ref;
            exists k :: p < k < q && EndsAt(Boot(disk, clock), steps, k, leg, steps[p].order.symbol)
  {
    var w, symbol := Boot(disk, clock), steps[p].order.symbol;
    var leg := Legs(steps[p].order, steps[p].cycle, steps[p].days)[x].ref;
    SentUntilEnded(disk, clock, steps, p, q, x);
    if OpenAt(w, steps, q, leg, symbol) {
      BootInv(disk, clock);
      RunAt(w, steps, q);
      OpenStopsSends(After(w, steps[..q]), steps[q], leg, symbol);
    }
  }
}
