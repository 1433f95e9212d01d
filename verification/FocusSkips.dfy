/** When a challenger's counted wins come on consecutive cycles, as the ranking module promises, and when not. */
module FocusSkips {
  import opened Common
  import opened Sorting
  import opened FocusList
  import opened FocusProofs

  // ------------------------------------------------------------------ one update

  /** The guards before the margin test: broken off, already promoted, promotion cap reached, nobody to displace. */
  predicate PassedOver(cfg: Config, input: Input, c: Contest, s: string) {
    || c.stopped || s in c.added || |c.added| >= cfg.maxPromotions
    || c.retained == [] || Weakest(c.retained, input.score) in input.protected
  }

  /** Is `s` one of these challengers, and passed over at its turn? */
  predicate PassedOverIn(cfg: Config, input: Input, c: Contest, challengers: seq<string>, s: string) {
    challengers != [] &&
    var n := |challengers| - 1;
    if challengers[n] == s then PassedOver(cfg, input, ChallengeAll(cfg, input, c, challengers[..n]), s)
    else PassedOverIn(cfg, input, c, challengers[..n], s)
  }

  predicate Tested(trace: seq<Compare>, s: string) {
    exists e :: e in trace && e.challenger == s
  }

  predicate WonTest(trace: seq<Compare>, s: string) {
    exists e :: e in trace && e.challenger == s && e.won
  }

  /** How the tests of `s` in a trace bear on its count: none, or one. */
  ghost predicate OneTest(trace: seq<Compare>, s: string, before: int) {
    if Tested(trace, s)
    then WonIn(trace, s, before) == 0 || (WonTest(trace, s) && WonIn(trace, s, before) == before + 1)
    else WonIn(trace, s, before) == before
  }

  lemma ChallengeTests(cfg: Config, input: Input, c: Contest, s: string)
    ensures var d := Challenge(cfg, input, c, s);
      if PassedOver(cfg, input, c, s) then d.trace == c.trace
      else |d.trace| == |c.trace| + 1 && d.trace[..|c.trace|] == c.trace && d.trace[|c.trace|].challenger == s
  {
  }

  lemma AppendedTest(trace: seq<Compare>, e: Compare, s: string, before: int)
    ensures WonIn(trace + [e], s, before)
         == if e.challenger != s then WonIn(trace, s, before)
            else if e.won && !e.displaced then WonIn(trace, s, before) + 1 else 0
    ensures Tested(trace + [e], s) <==> Tested(trace, s) || e.challenger == s
    ensures WonTest(trace + [e], s) <==> WonTest(trace, s) || (e.challenger == s && e.won)
  {
    assert (trace + [e])[..|trace|] == trace;
    assert (trace + [e])[|trace|] == e;
  }

  /** In one update every challenger is tested once or passed over. */
  lemma {:induction false} TestedOnce(cfg: Config, input: Input, c: Contest, challengers: seq<string>, s: string,
      before: int)
    requires Distinct(challengers) && c.trace == []
    ensures var trace := ChallengeAll(cfg, input, c, challengers).trace;
      && OneTest(trace, s, before)
      && (Tested(trace, s) <==> s in challengers && !PassedOverIn(cfg, input, c, challengers, s))
  {
    if challengers == [] {
    } else {
      var n := |challengers| - 1;
      TestedOnce(cfg, input, c, challengers[..n], s, before);
      var d := ChallengeAll(cfg, input, c, challengers[..n]);
      var after := Challenge(cfg, input, d, challengers[n]);
      ChallengeTests(cfg, input, d, challengers[n]);
      if !PassedOver(cfg, input, d, challengers[n]) {
        assert after.trace == d.trace + [after.trace[|d.trace|]];
        AppendedTest(d.trace, after.trace[|d.trace|], s, before);
      }
    }
  }

  ghost predicate TestsApart(trace: seq<Compare>) {
    forall i, j :: 0 <= i < j < |trace| ==> trace[i].challenger != trace[j].challenger
  }

  lemma {:induction false} EachTestedOnce(cfg: Config, input: Input, c: Contest, challengers: seq<string>)
    requires Distinct(challengers) && c.trace == []
    ensures var trace := ChallengeAll(cfg, input, c, challengers).trace;
      TestsApart(trace) && forall e :: e in trace ==> e.challenger in challengers
  {
    if challengers == [] {
    } else {
      var n := |challengers| - 1;
      EachTestedOnce(cfg, input, c, challengers[..n]);
      ChallengeTests(cfg, input, ChallengeAll(cfg, input, c, challengers[..n]), challengers[n]);
      assert challengers[n] !in challengers[..n];
    }
  }

  lemma {:induction false} UntestedKeepsCount(trace: seq<Compare>, s: string, before: int)
    requires forall e :: e in trace ==> e.challenger != s
    ensures WonIn(trace, s, before) == before
  {
    if trace == [] {
    } else {
      assert trace[|trace| - 1] in trace;
      UntestedKeepsCount(trace[..|trace| - 1], s, before);
    }
  }

  /** Up to its own test, a challenger's count is what it was before the update. */
  lemma CountBeforeTest(trace: seq<Compare>, t: nat, before: int)
    requires TestsApart(trace) && t < |trace|
    ensures WonIn(trace[..t], trace[t].challenger, before) == before
  {
    UntestedKeepsCount(trace[..t], trace[t].challenger, before);
  }

  // ------------------------------------------------------------------ over whole runs

  /** Was `s` a challenger passed over in update `k`? */
  predicate PassedOverAt(cfg: Config, inputs: seq<Input>, k: nat, s: string)
    requires k < |inputs|
  {
    var run := RunOf(cfg, inputs[..k]);
    PassedOverIn(cfg, inputs[k], Opening(cfg, run.current, run.streaks, inputs[k]),
                 Challengers(run.current, inputs[k]), s)
  }

  ghost predicate AllWellFormed(inputs: seq<Input>) {
    forall input :: input in inputs ==> WellFormed(input)
  }

  lemma {:induction false} RunDistinct(cfg: Config, inputs: seq<Input>)
    requires AllWellFormed(inputs)
    ensures Distinct(RunOf(cfg, inputs).current)
  {
    if inputs == [] {
    } else {
      var n := |inputs| - 1;
      var run := RunOf(cfg, inputs[..n]);
      RunDistinct(cfg, inputs[..n]);
      UpdateKeepsShape(cfg, run.current, run.streaks, inputs[n]);
    }
  }

  /** The members after a run are those of its last record. */
  lemma LastFocus(cfg: Config, inputs: seq<Input>)
    ensures var run := RunOf(cfg, inputs);
      if inputs == [] then run.current == [] && run.history == []
      else run.history != [] && run.history[|run.history| - 1].focus == run.current
  {
  }

  /** Whoever counts wins is no member. */
  lemma CountingIsOutside(cfg: Config, inputs: seq<Input>, s: string)
    requires Wins(RunOf(cfg, inputs).history, s) > 0
    ensures s !in RunOf(cfg, inputs).current
  {
    LastFocus(cfg, inputs);
  }

  lemma OneUpdateTests(cfg: Config, run: Run, input: Input, s: string, before: int)
    requires Ready(run.current, input)
    ensures var trace := Reselect(cfg, run.current, run.streaks, input).trace;
            var challengers := Challengers(run.current, input);
      && OneTest(trace, s, before)
      && Tested(trace, s)
         == (s in challengers
             && !PassedOverIn(cfg, input, Opening(cfg, run.current, run.streaks, input), challengers, s))
  {
    PartsFacts(cfg, run.current, input);
    TestedOnce(cfg, input, Opening(cfg, run.current, run.streaks, input), Challengers(run.current, input), s, before);
  }

  lemma LastRecord(cfg: Config, run: Run, input: Input, s: string)
    ensures var o, h := Reselect(cfg, run.current, run.streaks, input), Advance(cfg, run, input).history;
      && h != [] && h[|h| - 1].trace == o.trace
      && Wins(h, s) == if s in o.focus || s !in input.score then 0 else WonIn(o.trace, s, Wins(run.history, s))
  {
    var h := Advance(cfg, run, input).history;
    assert h[..|h| - 1] == run.history;
  }

  lemma OutsidersChallenge(cfg: Config, run: Run, input: Input, s: string)
    requires Ready(run.current, input) && s !in run.current && s in input.score
    requires s !in Reselect(cfg, run.current, run.streaks, input).focus
    ensures s in Challengers(run.current, input)
  {
    PartsFacts(cfg, run.current, input);
  }

  /**
   * What one update does to a count that stays above zero: the challenger wins its test and counts one
   * more, or is passed over and counts the same.
   */
  lemma CountStep(cfg: Config, inputs: seq<Input>, k: nat, s: string)
    requires AllWellFormed(inputs) && k < |inputs| && |RunOf(cfg, inputs).history| == |inputs|
    ensures var h := RunOf(cfg, inputs).history;
      && (Tested(h[k].trace, s) ==> !PassedOverAt(cfg, inputs, k, s))
      && (Wins(h[..k + 1], s) > 0 ==>
            if PassedOverAt(cfg, inputs, k, s) then !WonTest(h[k].trace, s) && Wins(h[..k + 1], s) == Wins(h[..k], s)
            else WonTest(h[k].trace, s) && Wins(h[..k + 1], s) == Wins(h[..k], s) + 1)
  {
    var run, h := RunOf(cfg, inputs[..k]), RunOf(cfg, inputs).history;
    HistoryAt(cfg, inputs, k);
    assert h[k] == h[..k + 1][k];
    RunDistinct(cfg, inputs[..k]);
    LastRecord(cfg, run, inputs[k], s);
    OneUpdateTests(cfg, run, inputs[k], s, Wins(run.history, s));
    if Wins(h[..k + 1], s) > 0 && !Tested(h[k].trace, s) {
      CountingIsOutside(cfg, inputs[..k], s);
      OutsidersChallenge(cfg, run, inputs[k], s);
    }
  }

  /** Where a count that stands above zero after `k` steps was last zero, or `k`. */
  function LastZero(counts: seq<int>, k: nat): (m: nat)
    requires k < |counts|
    ensures m <= k
  {
    if k == 0 || counts[k] <= 0 then k else LastZero(counts, k - 1)
  }

  /** In each step such a count moves up by one with a win, or stays with a passing over. */
  ghost predicate Steps(counts: seq<int>, won: seq<bool>, over: seq<bool>) {
    && |counts| == |won| + 1 == |over| + 1 && counts[0] == 0
    && forall i :: 0 <= i < |won| && counts[i + 1] > 0 ==>
         won[i] == !over[i] && counts[i + 1] == counts[i] + if over[i] then 0 else 1
  }

  lemma {:induction false} CountIsConsecutive(counts: seq<int>, won: seq<bool>, over: seq<bool>, k: nat)
    requires Steps(counts, won, over) && k < |counts| && counts[k] >= 0
    ensures counts[k] <= k
    ensures (forall i :: k - counts[k] <= i < k ==> won[i]) <==> (forall i :: LastZero(counts, k) <= i < k ==> !over[i])
  {
    if k == 0 || counts[k] == 0 {
    } else {
      assert counts[k - 1 + 1] > 0;
      CountIsConsecutive(counts, won, over, k - 1);
      if over[k - 1] {
        assert !won[k - 1];
      } else {
        assert won[k - 1];
      }
    }
  }

  function WinCounts(h: seq<Record>, s: string): seq<int> {
    seq(|h| + 1, i requires 0 <= i <= |h| => Wins(h[..i], s))
  }

  /** The update that gave the first of the wins counted before update `k`, or `k` if none is counted. */
  function FirstWin(h: seq<Record>, s: string, k: nat): (m: nat)
    requires k <= |h|
    ensures m <= k
  {
    LastZero(WinCounts(h, s), k)
  }

  lemma CountSteps(cfg: Config, inputs: seq<Input>, s: string, h: seq<Record>, won: seq<bool>, over: seq<bool>)
    requires AllWellFormed(inputs) && h == RunOf(cfg, inputs).history && |h| == |inputs| == |won| == |over|
    requires forall i :: 0 <= i < |h| ==> won[i] == WonTest(h[i].trace, s)
    requires forall i :: 0 <= i < |h| ==> over[i] == PassedOverAt(cfg, inputs, i, s)
    ensures Steps(WinCounts(h, s), won, over)
  {
    var counts := WinCounts(h, s);
    assert h[..0] == [];
    forall i | 0 <= i < |won| && counts[i + 1] > 0
      ensures won[i] == !over[i] && counts[i + 1] == counts[i] + if over[i] then 0 else 1
    {
      CountStep(cfg, inputs, i, s);
    }
  }

  lemma RunTestsApart(cfg: Config, inputs: seq<Input>, k: nat)
    requires AllWellFormed(inputs) && k < |inputs| && |RunOf(cfg, inputs).history| == |inputs|
    ensures TestsApart(RunOf(cfg, inputs).history[k].trace)
  {
    var run, h := RunOf(cfg, inputs[..k]), RunOf(cfg, inputs).history;
    HistoryAt(cfg, inputs, k);
    assert h[k] == h[..k + 1][k];
    RunDistinct(cfg, inputs[..k]);
    LastRecord(cfg, run, inputs[k], "");
    PartsFacts(cfg, run.current, inputs[k]);
    EachTestedOnce(cfg, inputs[k], Opening(cfg, run.current, run.streaks, inputs[k]),
                   Challengers(run.current, inputs[k]));
  }

  /** A challenger displaces with its `persistence`-th counted win. */
  lemma DisplacerCount(cfg: Config, inputs: seq<Input>, k: nat, t: nat)
    requires cfg.persistence >= 1 && AllWellFormed(inputs)
    requires k < |inputs| && |RunOf(cfg, inputs).history| == |inputs|
    requires t < |RunOf(cfg, inputs).history[k].trace| && RunOf(cfg, inputs).history[k].trace[t].displaced
    ensures var h := RunOf(cfg, inputs).history;
            h[k].trace[t].won && Wins(h[..k], h[k].trace[t].challenger) + 1 == cfg.persistence
  {
    var h := RunOf(cfg, inputs).history;
    DisplacesExactlyOnPersistence(cfg, inputs, k, t);
    RunTestsApart(cfg, inputs, k);
    CountBeforeTest(h[k].trace, t, Wins(h[..k], h[k].trace[t].challenger));
  }

  lemma DisplacerTested(trace: seq<Compare>, t: nat)
    requires t < |trace| && trace[t].won
    ensures Tested(trace, trace[t].challenger) && WonTest(trace, trace[t].challenger)
  {
    assert trace[t] in trace;
  }

  lemma OneMore(won: seq<bool>, over: seq<bool>, lo: nat, m: nat, k: nat)
    requires lo <= k < |won| == |over| && m <= k && won[k] && !over[k]
    requires (forall i :: lo <= i < k ==> won[i]) <==> (forall i :: m <= i < k ==> !over[i])
    ensures (forall i :: lo <= i <= k ==> won[i]) <==> (forall i :: m <= i <= k ==> !over[i])
  {
  }

  /** `won` and `over` say, update by update, whether the symbol won its test or was passed over. */
  lemma ConsecutiveBySeq(cfg: Config, inputs: seq<Input>, k: nat, s: string, won: seq<bool>, over: seq<bool>)
    requires cfg.persistence >= 1 && AllWellFormed(inputs)
    requires k < |inputs| == |won| == |over| == |RunOf(cfg, inputs).history|
    requires forall i :: 0 <= i < |won| ==> won[i] == WonTest(RunOf(cfg, inputs).history[i].trace, s)
    requires forall i :: 0 <= i < |over| ==> over[i] == PassedOverAt(cfg, inputs, i, s)
    requires won[k] && !over[k] && Wins(RunOf(cfg, inputs).history[..k], s) + 1 == cfg.persistence
    ensures var first := FirstWin(RunOf(cfg, inputs).history, s, k);
      && cfg.persistence <= k + 1
      && ((forall i :: k + 1 - cfg.persistence <= i <= k ==> won[i]) <==> (forall i :: first <= i <= k ==> !over[i]))
  {
    var h := RunOf(cfg, inputs).history;
    var counts := WinCounts(h, s);
    CountSteps(cfg, inputs, s, h, won, over);
    assert counts[k] == Wins(h[..k], s);
    CountIsConsecutive(counts, won, over, k);
    OneMore(won, over, k - counts[k], LastZero(counts, k), k);
  }

  function WonTests(h: seq<Record>, s: string): (won: seq<bool>)
    ensures |won| == |h| && forall i :: 0 <= i < |h| ==> won[i] == WonTest(h[i].trace, s)
  {
    seq(|h|, i requires 0 <= i < |h| => WonTest(h[i].trace, s))
  }

  function PassedOvers(cfg: Config, inputs: seq<Input>, s: string): (over: seq<bool>)
    ensures |over| == |inputs| && forall i :: 0 <= i < |inputs| ==> over[i] == PassedOverAt(cfg, inputs, i, s)
  {
    seq(|inputs|, i requires 0 <= i < |inputs| => PassedOverAt(cfg, inputs, i, s))
  }

  lemma DisplacerNotPassedOver(cfg: Config, inputs: seq<Input>, k: nat, t: nat)
    requires cfg.persistence >= 1 && AllWellFormed(inputs)
    requires k < |inputs| && |RunOf(cfg, inputs).history| == |inputs|
    requires t < |RunOf(cfg, inputs).history[k].trace| && RunOf(cfg, inputs).history[k].trace[t].displaced
    ensures var h := RunOf(cfg, inputs).history;
            var s := h[k].trace[t].challenger;
            WonTests(h, s)[k] && !PassedOvers(cfg, inputs, s)[k] && Wins(h[..k], s) + 1 == cfg.persistence
  {
    var h := RunOf(cfg, inputs).history;
    DisplacerCount(cfg, inputs, k, t);
    DisplacerTested(h[k].trace, t);
    CountStep(cfg, inputs, k, h[k].trace[t].challenger);
  }

  /** Won a test in each of the last `n` updates up to `k`. */
  ghost predicate WonRunning(h: seq<Record>, s: string, n: int, k: nat)
    requires k < |h|
  {
    n <= k + 1 && forall i :: 0 <= i && k + 1 - n <= i <= k ==> WonTest(h[i].trace, s)
  }

  /** Passed over in no update from `m` to `k`. */
  ghost predicate NeverPassedOver(cfg: Config, inputs: seq<Input>, s: string, m: nat, k: nat)
    requires k < |inputs|
  {
    forall i :: m <= i <= k ==> !PassedOverAt(cfg, inputs, i, s)
  }

  lemma ReadWon(h: seq<Record>, s: string, n: int, k: nat)
    requires k < |h| && n <= k + 1
    ensures WonRunning(h, s, n, k) <==> forall i :: 0 <= i && k + 1 - n <= i <= k ==> WonTests(h, s)[i]
  {
    var won := WonTests(h, s);
    assert forall i :: 0 <= i <= k ==> won[i] == WonTest(h[i].trace, s);
  }

  lemma ReadPassedOver(cfg: Config, inputs: seq<Input>, s: string, m: nat, k: nat)
    requires k < |inputs|
    ensures NeverPassedOver(cfg, inputs, s, m, k) <==> forall i :: m <= i <= k ==> !PassedOvers(cfg, inputs, s)[i]
  {
    var over := PassedOvers(cfg, inputs, s);
    if forall i :: m <= i <= k ==> !over[i] {
      forall i | m <= i <= k ensures !PassedOverAt(cfg, inputs, i, s) { assert !over[i]; }
    } else {
      var i :| m <= i <= k && over[i];
      assert PassedOverAt(cfg, inputs, i, s);
    }
  }

  /**
   * A challenger that displaces a member in update `k` has won a margin test in each of the last
   * `persistence` updates, exactly when no update since the first of its counted wins passed it over.
   */
  lemma ConsecutiveExactlyWhen(cfg: Config, inputs: seq<Input>, k: nat, t: nat)
    requires cfg.persistence >= 1 && AllWellFormed(inputs)
    requires k < |inputs| && |RunOf(cfg, inputs).history| == |inputs|
    requires t < |RunOf(cfg, inputs).history[k].trace| && RunOf(cfg, inputs).history[k].trace[t].displaced
    ensures var h := RunOf(cfg, inputs).history;
            var s := h[k].trace[t].challenger;
            WonRunning(h, s, cfg.persistence, k) <==> NeverPassedOver(cfg, inputs, s, FirstWin(h, s, k), k)
  {
    var h := RunOf(cfg, inputs).history;
    var s := h[k].trace[t].challenger;
    DisplacerNotPassedOver(cfg, inputs, k, t);
    ConsecutiveBySeq(cfg, inputs, k, s, WonTests(h, s), PassedOvers(cfg, inputs, s));
    ReadWon(h, s, cfg.persistence, k);
    ReadPassedOver(cfg, inputs, s, FirstWin(h, s, k), k);
  }

  // ------------------------------------------------------------------ a run in which they do not

  ghost predicate StrictlyBy(xs: seq<string>, key: string -> real) {
    forall i, j :: 0 <= i < j < |xs| ==> key(xs[i]) < key(xs[j])
  }

  lemma SameFirst(xs: seq<string>, ys: seq<string>, key: string -> real)
    requires SortedBy(xs, key) && StrictlyBy(ys, key) && xs != [] && ys != []
    requires xs[0] in ys && ys[0] in xs
    ensures xs[0] == ys[0]
  {
  }

  lemma SameRest(xs: seq<string>, ys: seq<string>, x: string)
    requires Distinct(xs) && Distinct(ys) && xs != [] && ys != [] && xs[0] == ys[0]
    requires x in xs <==> x in ys
    ensures x in xs[1..] <==> x in ys[1..]
  {
    assert xs == [xs[0]] + xs[1..] && ys == [ys[0]] + ys[1..];
  }

  lemma SameEmptiness(xs: seq<string>, ys: seq<string>)
    requires forall x :: x in xs <==> x in ys
    ensures xs == [] <==> ys == []
  {
    assert xs != [] ==> xs[0] in xs;
    assert ys != [] ==> ys[0] in ys;
  }

  /** A list is fixed by its members and their strict order. */
  lemma {:induction false} SortedIsUnique(xs: seq<string>, ys: seq<string>, key: string -> real)
    requires Distinct(xs) && SortedBy(xs, key) && StrictlyBy(ys, key)
    requires forall x :: x in xs <==> x in ys
    ensures xs == ys
  {
    SameEmptiness(xs, ys);
    if xs == [] {
    } else {
      assert xs[0] in xs && ys[0] in ys;
      SameFirst(xs, ys, key);
      forall x ensures x in xs[1..] <==> x in ys[1..] { SameRest(xs, ys, x); }
      SortedIsUnique(xs[1..], ys[1..], key);
      assert xs == [xs[0]] + xs[1..] && ys == [ys[0]] + ys[1..];
    }
  }

  lemma PlainOpening(cfg: Config, current: seq<string>, streaks: map<string, int>, input: Input,
                     retained: seq<string>, challengers: seq<string>)
    requires input.protected == [] && cfg.size >= 0
    requires Retained(cfg, current, input) == retained && Challengers(current, input) == challengers
    ensures var filled := challengers[..FillLimit(cfg, cfg.size - |retained|, |challengers|)];
            Opening(cfg, current, streaks, input) == Contest(retained + filled, filled, streaks, [], false)
  {
    assert Slots(cfg, current, input) == cfg.size;
  }

  /** With nobody protected, the contest decides the list. */
  lemma PlainOutcome(cfg: Config, current: seq<string>, streaks: map<string, int>, input: Input, closing: Contest)
    requires input.protected == [] && Closing(cfg, current, streaks, input) == closing
    ensures var o := Reselect(cfg, current, streaks, input);
      && o.focus == closing.retained && o.trace == closing.trace
      && o.streaks == Prune(closing.streaks, closing.retained, input.score)
  {
    assert Keep(current, input) == [];
    FilterAll((s: string) => s !in Keep(current, input), closing.retained);
  }

  /** Nobody protected: an update in terms of who stays, who fills and the contest that follows. */
  lemma PlainUpdate(cfg: Config, current: seq<string>, streaks: map<string, int>, input: Input,
                    retained: seq<string>, challengers: seq<string>, opening: Contest, closing: Contest)
    requires input.protected == [] && cfg.size >= 0
    requires Retained(cfg, current, input) == retained && Challengers(current, input) == challengers
    requires var filled := challengers[..FillLimit(cfg, cfg.size - |retained|, |challengers|)];
             opening == Contest(retained + filled, filled, streaks, [], false)
    requires closing == ChallengeAll(cfg, input, opening, challengers)
    ensures var o := Reselect(cfg, current, streaks, input);
      && o.focus == closing.retained && o.trace == closing.trace
      && o.streaks == Prune(closing.streaks, closing.retained, input.score)
  {
    PlainOpening(cfg, current, streaks, input, retained, challengers);
    PlainOutcome(cfg, current, streaks, input, closing);
  }

  lemma ChallengersAre(cfg: Config, current: seq<string>, input: Input, challengers: seq<string>)
    requires Ready(current, input) && StrictlyBy(challengers, Descending(input))
    requires forall s :: s in challengers <==> s in input.score && s !in current && s !in Keep(current, input)
    ensures Challengers(current, input) == challengers
  {
    PartsFacts(cfg, current, input);
    SortedIsUnique(Challengers(current, input), challengers, Descending(input));
  }

  lemma IncumbentsSorted(cfg: Config, current: seq<string>, input: Input, sorted: seq<string>)
    requires Ready(current, input) && sorted == SortBy(Incumbents(current, input), Descending(input))
    ensures Distinct(sorted) && SortedBy(sorted, Descending(input))
    ensures forall s :: s in sorted <==> s in current && s in input.score && s !in Keep(current, input)
  {
    PartsFacts(cfg, current, input);
    SortFacts(Incumbents(current, input), Descending(input));
    SortDistinct(Incumbents(current, input), Descending(input));
  }

  lemma RetainedAre(cfg: Config, current: seq<string>, input: Input, retained: seq<string>)
    requires Ready(current, input) && StrictlyBy(retained, Descending(input))
    requires |retained| <= Slots(cfg, current, input)
    requires forall s :: s in retained <==> s in input.score && s in current && s !in Keep(current, input)
    ensures Retained(cfg, current, input) == retained
  {
    var sorted := SortBy(Incumbents(current, input), Descending(input));
    IncumbentsSorted(cfg, current, input, sorted);
    SortedIsUnique(sorted, retained, Descending(input));
  }

  /** Two slots, two wins running, one promotion a cycle. */
  const TWO_SLOTS := Config(2, 0.15, 2, 1)

  /** The old members `a` and `b`, the challenger `x`, best first; nobody protected. */
  function ThreeScored(a: string, x: string, b: string): Input {
    Input([a, x, b], map[a := 10.0, x := 5.0, b := 1.0], [])
  }

  /** `b` lost its score and `y` came. */
  function BetterCame(a: string, x: string, y: string): Input {
    Input([a, y, x], map[a := 10.0, y := 9.0, x := 5.0], [])
  }

  function FirstScored(a: string): Input {
    Input([a], map[a := 10.0], [])
  }

  function TwoScored(a: string, b: string): Input {
    Input([a, b], map[a := 10.0, b := 1.0], [])
  }

  lemma LoneChallenger(cfg: Config, input: Input, c: Contest, s: string)
    ensures ChallengeAll(cfg, input, c, [s]) == Challenge(cfg, input, c, s)
  {
    assert [s][..0] == [];
  }

  lemma WeakestOfTwo(a: string, b: string, score: map<string, real>)
    ensures Weakest([a, b], score) == if ScoreOf(score, b) < ScoreOf(score, a) then b else a
  {
    assert [a, b][..1] == [a];
  }

  lemma FirstParts(a: string)
    ensures Retained(TWO_SLOTS, [], FirstScored(a)) == [] && Challengers([], FirstScored(a)) == [a]
  {
    ChallengersAre(TWO_SLOTS, [], FirstScored(a), [a]);
    RetainedAre(TWO_SLOTS, [], FirstScored(a), []);
  }

  /** `a` walks into the first of two free slots; the promotion cap leaves the other free. */
  lemma FirstUpdate(a: string)
    ensures var o := Reselect(TWO_SLOTS, [], map[], FirstScored(a)); o.focus == [a] && o.streaks == map[]
  {
    FirstParts(a);
    var c := Contest([a], [a], map[], [], false);
    LoneChallenger(TWO_SLOTS, FirstScored(a), c, a);
    PlainUpdate(TWO_SLOTS, [], map[], FirstScored(a), [], [a], c, c);
  }

  lemma SecondParts(a: string, b: string)
    requires a != b
    ensures Retained(TWO_SLOTS, [a], TwoScored(a, b)) == [a] && Challengers([a], TwoScored(a, b)) == [b]
  {
    ChallengersAre(TWO_SLOTS, [a], TwoScored(a, b), [b]);
    RetainedAre(TWO_SLOTS, [a], TwoScored(a, b), [a]);
  }

  /** `b` walks into the second. */
  lemma SecondUpdate(a: string, b: string)
    requires a != b
    ensures var o := Reselect(TWO_SLOTS, [a], map[], TwoScored(a, b)); o.focus == [a, b] && o.streaks == map[]
  {
    SecondParts(a, b);
    var c := Contest([a, b], [b], map[], [], false);
    LoneChallenger(TWO_SLOTS, TwoScored(a, b), c, b);
    PlainUpdate(TWO_SLOTS, [a], map[], TwoScored(a, b), [a], [b], c, c);
  }

  lemma ThreeParts(a: string, x: string, b: string)
    requires a != x && a != b && x != b
    ensures Retained(TWO_SLOTS, [a, b], ThreeScored(a, x, b)) == [a, b]
    ensures Challengers([a, b], ThreeScored(a, x, b)) == [x]
  {
    ChallengersAre(TWO_SLOTS, [a, b], ThreeScored(a, x, b), [x]);
    RetainedAre(TWO_SLOTS, [a, b], ThreeScored(a, x, b), [a, b]);
  }

  lemma FirstContest(a: string, x: string, b: string)
    requires a != x && a != b && x != b
    ensures ChallengeAll(TWO_SLOTS, ThreeScored(a, x, b), Contest([a, b], [], map[], [], false), [x])
         == Contest([a, b], [], map[x := 1], [Compare(x, b, true, false)], false)
  {
    LoneChallenger(TWO_SLOTS, ThreeScored(a, x, b), Contest([a, b], [], map[], [], false), x);
    WeakestOfTwo(a, b, ThreeScored(a, x, b).score);
  }

  /** `x` beats `b` for the first time. */
  lemma ThirdUpdate(a: string, x: string, b: string)
    requires a != x && a != b && x != b
    ensures var o := Reselect(TWO_SLOTS, [a, b], map[], ThreeScored(a, x, b));
            o.focus == [a, b] && o.streaks == map[x := 1] && o.trace == [Compare(x, b, true, false)]
  {
    ThreeParts(a, x, b);
    FirstContest(a, x, b);
    PlainUpdate(TWO_SLOTS, [a, b], map[], ThreeScored(a, x, b), [a, b], [x], Contest([a, b], [], map[], [], false),
                Contest([a, b], [], map[x := 1], [Compare(x, b, true, false)], false));
  }

  lemma BetterParts(a: string, b: string, x: string, y: string)
    requires a != b && x != a && x != b && y != a && y != b && x != y
    ensures Retained(TWO_SLOTS, [a, b], BetterCame(a, x, y)) == [a]
    ensures Challengers([a, b], BetterCame(a, x, y)) == [y, x]
  {
    ChallengersAre(TWO_SLOTS, [a, b], BetterCame(a, x, y), [y, x]);
    RetainedAre(TWO_SLOTS, [a, b], BetterCame(a, x, y), [a]);
  }

  lemma IdleContest(a: string, x: string, y: string)
    requires a != x && a != y && x != y
    ensures var c := Contest([a, y], [y], map[x := 1], [], false);
            && ChallengeAll(TWO_SLOTS, BetterCame(a, x, y), c, [y, x]) == c
            && PassedOverIn(TWO_SLOTS, BetterCame(a, x, y), c, [y, x], x)
  {
    LoneChallenger(TWO_SLOTS, BetterCame(a, x, y), Contest([a, y], [y], map[x := 1], [], false), y);
    assert [y, x][..1] == [y];
  }

  /** `b` has no score, `y` walks into its slot, and the promotion cap passes `x` over. */
  lemma FourthUpdate(a: string, b: string, x: string, y: string)
    requires a != b && x != a && x != b && y != a && y != b && x != y
    ensures var o := Reselect(TWO_SLOTS, [a, b], map[x := 1], BetterCame(a, x, y));
            o.focus == [a, y] && o.streaks == map[x := 1] && o.trace == []
  {
    BetterParts(a, b, x, y);
    IdleContest(a, x, y);
    var c := Contest([a, y], [y], map[x := 1], [], false);
    assert [y, x][..1] == [y];
    PlainUpdate(TWO_SLOTS, [a, b], map[x := 1], BetterCame(a, x, y), [a], [y, x], c, c);
  }

  lemma LastContest(a: string, x: string, y: string)
    requires a != x && a != y && x != y
    ensures ChallengeAll(TWO_SLOTS, ThreeScored(a, x, y), Contest([a, y], [], map[x := 1], [], false), [x])
         == Contest([a, x], [x], map[], [Compare(x, y, true, true)], false)
  {
    LoneChallenger(TWO_SLOTS, ThreeScored(a, x, y), Contest([a, y], [], map[x := 1], [], false), x);
    WeakestOfTwo(a, y, ThreeScored(a, x, y).score);
    assert [a, y][1..] == [y] && [y][1..] == [];
    assert Remove([a, y], y) == [a];
  }

  /** `x` beats `y` and displaces it. */
  lemma FifthUpdate(a: string, x: string, y: string)
    requires a != x && a != y && x != y
    ensures Reselect(TWO_SLOTS, [a, y], map[x := 1], ThreeScored(a, x, y)).trace == [Compare(x, y, true, true)]
  {
    ThreeParts(a, x, y);
    LastContest(a, x, y);
    PlainUpdate(TWO_SLOTS, [a, y], map[x := 1], ThreeScored(a, x, y), [a, y], [x],
                Contest([a, y], [], map[x := 1], [], false),
                Contest([a, x], [x], map[], [Compare(x, y, true, true)], false));
  }

  lemma RunOneMore(cfg: Config, inputs: seq<Input>, input: Input)
    ensures RunOf(cfg, inputs + [input]) == Advance(cfg, RunOf(cfg, inputs), input)
  {
    assert (inputs + [input])[..|inputs|] == inputs;
  }

  function FirstThree(a: string, x: string, b: string): seq<Input> {
    [FirstScored(a)] + [TwoScored(a, b)] + [ThreeScored(a, x, b)]
  }

  lemma AfterThree(a: string, x: string, b: string)
    requires a != x && a != b && x != b
    ensures var run := RunOf(TWO_SLOTS, FirstThree(a, x, b));
      && run.current == [a, b] && run.streaks == map[x := 1] && |run.history| == 3
      && run.history[2].trace == [Compare(x, b, true, false)]
  {
    RunOneMore(TWO_SLOTS, [], FirstScored(a));
    assert [] + [FirstScored(a)] == [FirstScored(a)];
    FirstUpdate(a);
    RunOneMore(TWO_SLOTS, [FirstScored(a)], TwoScored(a, b));
    SecondUpdate(a, b);
    RunOneMore(TWO_SLOTS, [FirstScored(a)] + [TwoScored(a, b)], ThreeScored(a, x, b));
    ThirdUpdate(a, x, b);
  }

  function SkippingRun(a: string, b: string, x: string, y: string): seq<Input> {
    FirstThree(a, x, b) + [BetterCame(a, x, y)] + [ThreeScored(a, x, y)]
  }

  lemma SkippedAtFour(a: string, b: string, x: string, y: string)
    requires a != b && x != a && x != b && y != a && y != b && x != y
    ensures var inputs := FirstThree(a, x, b) + [BetterCame(a, x, y)];
            var run := RunOf(TWO_SLOTS, inputs);
      && run.current == [a, y] && run.streaks == map[x := 1] && |run.history| == 4
      && run.history[2].trace == [Compare(x, b, true, false)] && run.history[3].trace == []
  {
    AfterThree(a, x, b);
    RunOneMore(TWO_SLOTS, FirstThree(a, x, b), BetterCame(a, x, y));
    FourthUpdate(a, b, x, y);
  }

  lemma PassedOverThen(a: string, b: string, x: string, y: string)
    requires a != b && x != a && x != b && y != a && y != b && x != y
    ensures PassedOverIn(TWO_SLOTS, BetterCame(a, x, y), Opening(TWO_SLOTS, [a, b], map[x := 1], BetterCame(a, x, y)),
                         Challengers([a, b], BetterCame(a, x, y)), x)
  {
    BetterParts(a, b, x, y);
    IdleContest(a, x, y);
    assert [y, x][..1] == [y];
    PlainOpening(TWO_SLOTS, [a, b], map[x := 1], BetterCame(a, x, y), [a], [y, x]);
  }

  lemma SkippingRunWellFormed(a: string, b: string, x: string, y: string)
    requires a != b && x != a && x != b && y != a && y != b && x != y
    ensures AllWellFormed(SkippingRun(a, b, x, y))
  {
    assert WellFormed(FirstScored(a)) && WellFormed(TwoScored(a, b)) && WellFormed(ThreeScored(a, x, b));
    assert WellFormed(BetterCame(a, x, y)) && WellFormed(ThreeScored(a, x, y));
  }

  /**
   * Two wins in a row are asked for, and `x` displaces `y` after a cycle in which it won nothing, because
   * the promotion cap passed it over: its first win was against `b`, two cycles earlier.
   */
  lemma SkippedCycleCounts(a: string, b: string, x: string, y: string)
    requires a != b && x != a && x != b && y != a && y != b && x != y
    ensures var inputs := SkippingRun(a, b, x, y);
            var h := RunOf(TWO_SLOTS, inputs).history;
      && AllWellFormed(inputs) && |inputs| == |h| == 5
      && h[2].trace == [Compare(x, b, true, false)] && h[3].trace == [] && h[4].trace == [Compare(x, y, true, true)]
      && PassedOverAt(TWO_SLOTS, inputs, 3, x) && !WonRunning(h, x, TWO_SLOTS.persistence, 4)
  {
    var inputs := SkippingRun(a, b, x, y);
    SkippingRunWellFormed(a, b, x, y);
    SkippedAtFour(a, b, x, y);
    RunOneMore(TWO_SLOTS, FirstThree(a, x, b) + [BetterCame(a, x, y)], ThreeScored(a, x, y));
    FifthUpdate(a, x, y);
    assert inputs[..3] == FirstThree(a, x, b);
    AfterThree(a, x, b);
    PassedOverThen(a, b, x, y);
    var h := RunOf(TWO_SLOTS, inputs).history;
    assert h[3].trace == [];
    assert !WonTest(h[3].trace, x);
  }
}
