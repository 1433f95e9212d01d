/** What the focus list does not promise, each with an input and its exact condition. */
module FocusLimits {
  import opened Common
  import opened Sorting
  import opened FocusList
  import opened FocusProofs
  import opened FocusSkips

  // ------------------------------------------------------------------ scores against which the margin inverts

  lemma {:induction false} NothingRetained(cfg: Config, input: Input, c: Contest, ch: seq<string>)
    requires c.retained == [] && c.added == []
    ensures ChallengeAll(cfg, input, c, ch).retained == [] && ChallengeAll(cfg, input, c, ch).added == []
  {
    if ch == [] {
    } else {
      NothingRetained(cfg, input, c, ch[..|ch| - 1]);
    }
  }

  lemma {:induction false} OnePromotionStays(cfg: Config, input: Input, c: Contest, ch: seq<string>)
    requires cfg.maxPromotions <= 1 && (forall a :: a in c.added ==> a in c.retained)
    ensures forall a :: a in ChallengeAll(cfg, input, c, ch).added ==> a in ChallengeAll(cfg, input, c, ch).retained
  {
    if ch == [] {
    } else {
      OnePromotionStays(cfg, input, c, ch[..|ch| - 1]);
    }
  }

  /** With no slot to fill, or at most one promotion a cycle, whoever is reported as added is in. */
  lemma SmallIsExact(cfg: Config, current: seq<string>, streaks: map<string, int>, input: Input)
    requires Ready(current, input) && (cfg.size <= 0 || cfg.maxPromotions <= 1)
    ensures NewMembersExact(cfg, current, streaks, input)
  {
    var opening, ch := Opening(cfg, current, streaks, input), Challengers(current, input);
    if cfg.size <= 0 {
      assert Slots(cfg, current, input) == 0;
      NothingRetained(cfg, input, opening, ch);
    } else {
      OnePromotionStays(cfg, input, opening, ch);
    }
    NewMembersIfAllStay(cfg, current, streaks, input);
  }

  /** None of the names used below. */
  predicate Spare(names: seq<string>) { "A" !in names && "B" !in names && "M" !in names }

  /** There are as many other distinct names as you like. */
  lemma Fillers(n: nat) returns (names: seq<string>)
    ensures |names| == n && Distinct(names) && Spare(names)
  {
    names := seq(n, i requires 0 <= i < n => seq(i + 2, _ => 'x'));
    assert forall i :: 0 <= i < n ==> |names[i]| == i + 2;
  }

  /** Two candidates of the same score, and nobody else scored. */
  function TwoCandidates(protected: seq<string>, v: real): Input {
    Input(["A", "B"], map["A" := v, "B" := v], protected)
  }

  /** Who is protected is a member, and what other members there are have lost their scores. */
  ghost predicate OnlyProtected(current: seq<string>, input: Input) {
    && (forall s :: s in input.protected ==> s in current)
    && (forall s :: s in current ==> s in input.protected || s !in input.score)
    && "A" !in current && "B" !in current
  }

  /** Then "A" and "B" are the challengers and no incumbent is left. */
  lemma OnlyProtectedParts(current: seq<string>, input: Input)
    requires OnlyProtected(current, input)
    ensures Keep(current, input) == input.protected && Incumbents(current, input) == []
  {
    FilterAll((s: string) => s in input.score || s in current, input.protected);
    FilterNone((s: string) => s !in Keep(current, input) && s in input.score, current);
  }

  lemma OnlyProtectedChallengers(current: seq<string>, input: Input)
    requires OnlyProtected(current, input) && input.symbols == ["A", "B"]
    requires ScoreOf(input.score, "A") >= ScoreOf(input.score, "B")
    ensures Challengers(current, input) == ["A", "B"]
  {
    OnlyProtectedParts(current, input);
    FilterAll((s: string) => s !in Keep(current, input) && s !in Incumbents(current, input), input.symbols);
    SortSorted(input.symbols, Descending(input));
  }

  /** With one slot besides them, "A" walks in before the contested phase. */
  lemma OnlyProtectedOpening(cfg: Config, current: seq<string>, streaks: map<string, int>, input: Input)
    requires OnlyProtected(current, input) && input.symbols == ["A", "B"]
    requires ScoreOf(input.score, "A") >= ScoreOf(input.score, "B")
    requires |input.protected| == cfg.size - 1 && cfg.maxPromotions >= 1
    ensures Opening(cfg, current, streaks, input) == Contest(["A"], ["A"], streaks, [], false)
  {
    OnlyProtectedParts(current, input);
    OnlyProtectedChallengers(current, input);
    assert Slots(cfg, current, input) == 1;
    assert Retained(cfg, current, input) == [];
    assert FillCount(cfg, current, input) == 1;
    assert ["A", "B"][..1] == ["A"];
  }

  /** From there "B", once it beats "A" with a streak that suffices, takes the only slot. */
  lemma SecondDisplacesFirst(cfg: Config, input: Input, streaks: map<string, int>)
    requires cfg.maxPromotions >= 2 && Beats(input.score, cfg.margin, "B", "A") && "A" !in input.protected
    requires StreakOf(streaks, "B") + 1 >= cfg.persistence
    ensures var c := ChallengeAll(cfg, input, Contest(["A"], ["A"], streaks, [], false), ["A", "B"]);
            c.retained == ["B"] && c.added == ["A", "B"]
  {
    var opening := Contest(["A"], ["A"], streaks, [], false);
    assert ["A", "B"][..1] == ["A"] && ["A"][..0] == [];
    assert ChallengeAll(cfg, input, opening, ["A"]) == opening;
    var c := Challenge(cfg, input, opening, "B");
    assert Weakest(["A"], input.score) == "A";
    assert Remove(["A"], "A") == [];
    assert c.retained == ["B"] && c.added == ["A", "B"];
  }

  /**
   * With negative scores the margin inverts: filling one slot from two candidates, the better one is
   * added, then displaced in the same update by the worse, and is reported as added without being in.
   */
  lemma NegativeScoresBreakAdded()
    ensures var input := Input(["A", "B"], map["A" := -1.0, "B" := -1.1], []);
            var o := Reselect(Config(1, 0.15, 1, 4), [], map[], input);
            o.added == ["A", "B"] && o.focus == ["B"]
  {
    var cfg := Config(1, 0.15, 1, 4);
    var input := Input(["A", "B"], map["A" := -1.0, "B" := -1.1], []);
    OnlyProtectedOpening(cfg, [], map[], input);
    OnlyProtectedChallengers([], input);
    OnlyProtectedParts([], input);
    SecondDisplacesFirst(cfg, input, map[]);
    FilterAll((s: string) => s !in Keep([], input), ["B"]);
  }

  lemma AddedButOut(cfg: Config, current: seq<string>, streaks: map<string, int>, input: Input)
    requires "A" !in Keep(current, input) && "A" !in current
    requires var c := Closing(cfg, current, streaks, input); "A" in c.added && "A" !in c.retained
    ensures !NewMembersExact(cfg, current, streaks, input)
  {
    var o := Reselect(cfg, current, streaks, input);
    assert "A" in o.added && "A" !in o.focus;
  }

  /** When the protected members leave one slot, the second candidate, once it beats the first, displaces it at once. */
  lemma SecondBreaks(cfg: Config, current: seq<string>, input: Input, streaks: map<string, int>)
    requires OnlyProtected(current, input) && |input.protected| == cfg.size - 1
    requires input.symbols == ["A", "B"] && ScoreOf(input.score, "A") >= ScoreOf(input.score, "B")
    requires cfg.maxPromotions >= 2 && Beats(input.score, cfg.margin, "B", "A")
    requires StreakOf(streaks, "B") + 1 >= cfg.persistence
    ensures !NewMembersExact(cfg, current, streaks, input)
  {
    OnlyProtectedOpening(cfg, current, streaks, input);
    OnlyProtectedChallengers(current, input);
    SecondDisplacesFirst(cfg, input, streaks);
    OnlyProtectedParts(current, input);
    AddedButOut(cfg, current, streaks, input);
  }

  // ------------------------------------------------------------------ a run that gets there

  /** One score for everybody. */
  function SameScore(symbols: seq<string>, v: real, protected: seq<string>): Input {
    Input(symbols, map s | s in symbols :: v, protected)
  }

  lemma WrongSignBeats(input: Input, margin: real, v: real, s: string, w: string)
    requires v * margin < 0.0 && ScoreOf(input.score, s) == v && ScoreOf(input.score, w) == v
    ensures Beats(input.score, margin, s, w)
  {
    assert v * (1.0 + margin) == v + v * margin;
  }

  /** An update in terms of who is kept, who stays and who challenges. */
  lemma UpdateFrom(cfg: Config, current: seq<string>, streaks: map<string, int>, input: Input, keep: seq<string>,
      retained: seq<string>, challengers: seq<string>, opening: Contest, closing: Contest)
    requires Keep(current, input) == keep && Retained(cfg, current, input) == retained
    requires Challengers(current, input) == challengers && |keep| <= cfg.size
    requires var filled := challengers[..FillLimit(cfg, cfg.size - |keep| - |retained|, |challengers|)];
             opening == Contest(retained + filled, filled, streaks, [], false)
    requires closing == ChallengeAll(cfg, input, opening, challengers)
    requires forall s :: s in closing.retained ==> s !in keep
    ensures var o := Reselect(cfg, current, streaks, input);
      o.focus == keep + closing.retained && o.streaks == Prune(closing.streaks, keep + closing.retained, input.score)
  {
    assert Slots(cfg, current, input) == cfg.size - |keep|;
    assert Opening(cfg, current, streaks, input) == opening;
    FilterAll((s: string) => s !in keep, closing.retained);
  }

  lemma KeptProtected(current: seq<string>, input: Input)
    requires forall s :: s in input.protected ==> s in input.score || s in current
    ensures Keep(current, input) == input.protected
  {
    FilterAll((s: string) => s in input.score || s in current, input.protected);
  }

  lemma FirstInParts(cfg: Config, names: seq<string>, v: real)
    requires cfg.size == |names| + 1 && Distinct(names) && Spare(names)
    ensures var input := SameScore(names + ["M"], v, names);
      && Ready([], input) && Keep([], input) == names && Retained(cfg, [], input) == []
      && Challengers([], input) == ["M"]
  {
    var input := SameScore(names + ["M"], v, names);
    KeptProtected([], input);
    RetainedAre(cfg, [], input, []);
    ChallengersAre(cfg, [], input, ["M"]);
  }

  /** "M" walks into the slot that the protected names leave. */
  lemma FirstIn(cfg: Config, names: seq<string>, v: real)
    requires cfg.size == |names| + 1 && cfg.maxPromotions >= 1 && Distinct(names) && Spare(names)
    ensures var o := Reselect(cfg, [], map[], SameScore(names + ["M"], v, names));
            o.focus == names + ["M"] && o.streaks == map[]
  {
    var input, c := SameScore(names + ["M"], v, names), Contest(["M"], ["M"], map[], [], false);
    FirstInParts(cfg, names, v);
    LoneChallenger(cfg, input, c, "M");
    UpdateFrom(cfg, [], map[], input, names, [], ["M"], c, c);
  }

  lemma WinParts(cfg: Config, names: seq<string>, v: real)
    requires cfg.size == |names| + 1 && Distinct(names) && Spare(names)
    ensures var current, input := names + ["M"], SameScore(["M", "B"], v, names);
      && Ready(current, input) && Keep(current, input) == names && Retained(cfg, current, input) == ["M"]
      && Challengers(current, input) == ["B"]
  {
    var current, input := names + ["M"], SameScore(["M", "B"], v, names);
    KeptProtected(current, input);
    RetainedAre(cfg, current, input, ["M"]);
    ChallengersAre(cfg, current, input, ["B"]);
  }

  function Streak(j: nat): map<string, int> { if j == 0 then map[] else map["B" := j] }

  lemma WinContest(cfg: Config, input: Input, j: nat)
    requires cfg.maxPromotions >= 1 && j + 1 < cfg.persistence && "M" !in input.protected
    requires Beats(input.score, cfg.margin, "B", "M")
    ensures ChallengeAll(cfg, input, Contest(["M"], [], Streak(j), [], false), ["B"])
         == Contest(["M"], [], Streak(j + 1), [Compare("B", "M", true, false)], false)
  {
    LoneChallenger(cfg, input, Contest(["M"], [], Streak(j), [], false), "B");
    assert Weakest(["M"], input.score) == "M";
    assert Streak(j)["B" := j + 1] == Streak(j + 1);
  }

  /** "B" beats "M" once more, too few times to displace it. */
  lemma WinsAgain(cfg: Config, names: seq<string>, v: real, j: nat)
    requires cfg.size == |names| + 1 && cfg.maxPromotions >= 1 && Distinct(names) && Spare(names)
    requires j + 1 < cfg.persistence && v * cfg.margin < 0.0
    ensures var o := Reselect(cfg, names + ["M"], Streak(j), SameScore(["M", "B"], v, names));
            o.focus == names + ["M"] && o.streaks == Streak(j + 1)
  {
    var input := SameScore(["M", "B"], v, names);
    WinParts(cfg, names, v);
    WrongSignBeats(input, cfg.margin, v, "B", "M");
    WinContest(cfg, input, j);
    UpdateFrom(cfg, names + ["M"], Streak(j), input, names, ["M"], ["B"], Contest(["M"], [], Streak(j), [], false),
               Contest(["M"], [], Streak(j + 1), [Compare("B", "M", true, false)], false));
  }

  /** The list is the protected names and "M", and "B" has won `j` times. */
  predicate Wooed(run: Run, names: seq<string>, j: nat) {
    run.current == names + ["M"] && run.streaks == Streak(j)
  }

  lemma WooingBegins(cfg: Config, names: seq<string>, v: real, run: Run)
    requires cfg.size == |names| + 1 && cfg.maxPromotions >= 1 && Distinct(names) && Spare(names)
    requires run.current == [] && run.streaks == map[]
    ensures Wooed(Advance(cfg, run, SameScore(names + ["M"], v, names)), names, 0)
  {
    FirstIn(cfg, names, v);
  }

  lemma WooingGoesOn(cfg: Config, names: seq<string>, v: real, run: Run, j: nat)
    requires cfg.size == |names| + 1 && cfg.maxPromotions >= 1 && Distinct(names) && Spare(names)
    requires j + 1 < cfg.persistence && v * cfg.margin < 0.0 && Wooed(run, names, j)
    ensures Wooed(Advance(cfg, run, SameScore(["M", "B"], v, names)), names, j + 1)
  {
    WinsAgain(cfg, names, v, j);
  }

  ghost predicate ScoredWithin(inputs: seq<Input>, values: set<real>) {
    forall input :: input in inputs ==> WellFormed(input) && input.score.Values <= values
  }

  lemma SameScoreWithin(symbols: seq<string>, v: real, protected: seq<string>, values: set<real>)
    requires Distinct(symbols) && Distinct(protected) && v in values
    ensures ScoredWithin([SameScore(symbols, v, protected)], values)
  {
  }

  lemma WithinConcat(first: seq<Input>, second: seq<Input>, values: set<real>)
    requires ScoredWithin(first, values) && ScoredWithin(second, values)
    ensures ScoredWithin(first + second, values)
  {
  }

  /** A first input, and then the same one over and over. */
  function Repeated<A>(first: A, next: A, n: nat): (xs: seq<A>)
    ensures forall x :: x in xs ==> x == first || x == next
  {
    if n == 0 then [first] else Repeated(first, next, n - 1) + [next]
  }

  /** Whatever the first input brings about and every repetition carries on. */
  lemma {:induction false} Carries<S, A>(run: seq<A> -> S, step: (S, A) -> S, P: (S, nat) -> bool, first: A, next: A,
      n: nat)
    requires run([first]) == step(run([]), first) && P(step(run([]), first), 0)
    requires forall k {:trigger Repeated(first, next, k)} :: 0 <= k < n ==>
               run(Repeated(first, next, k) + [next]) == step(run(Repeated(first, next, k)), next)
    requires forall k {:trigger Repeated(first, next, k)} :: 0 <= k < n && P(run(Repeated(first, next, k)), k) ==>
               P(step(run(Repeated(first, next, k)), next), k + 1)
    ensures P(run(Repeated(first, next, n)), n)
  {
    if n == 0 {
    } else {
      Carries(run, step, P, first, next, n - 1);
      assert P(run(Repeated(first, next, n - 1)), n - 1);
    }
  }

  /** "M" comes in, and "B" beats it `j` times. */
  lemma Wooing(cfg: Config, names: seq<string>, v: real, j: nat)
    requires cfg.size == |names| + 1 && cfg.maxPromotions >= 1 && Distinct(names) && Spare(names)
    requires (j == 0 || j < cfg.persistence) && v * cfg.margin < 0.0
    ensures Wooed(
      RunOf(cfg, Repeated(SameScore(names + ["M"], v, names), SameScore(["M", "B"], v, names), j)), names, j)
  {
    var first, next := SameScore(names + ["M"], v, names), SameScore(["M", "B"], v, names);
    var run := (xs: seq<Input>) => RunOf(cfg, xs);
    var step := (r: Run, i: Input) => Advance(cfg, r, i);
    var P := (r: Run, k: nat) => Wooed(r, names, k);
    RunOneMore(cfg, [], first);
    assert [] + [first] == [first];
    WooingBegins(cfg, names, v, RunOf(cfg, []));
    forall k | 0 <= k < j
      ensures run(Repeated(first, next, k) + [next]) == step(run(Repeated(first, next, k)), next)
    {
      RunOneMore(cfg, Repeated(first, next, k), next);
    }
    forall k | 0 <= k < j && P(run(Repeated(first, next, k)), k)
      ensures P(step(run(Repeated(first, next, k)), next), k + 1)
    {
      WooingGoesOn(cfg, names, v, run(Repeated(first, next, k)), k);
    }
    Carries(run, step, P, first, next, j);
  }

  lemma WooingWithin(names: seq<string>, v: real, j: nat, values: set<real>)
    requires Distinct(names) && Spare(names) && v in values
    ensures ScoredWithin(Repeated(SameScore(names + ["M"], v, names), SameScore(["M", "B"], v, names), j), values)
  {
    DistinctConcat(names, ["M"]);
    SameScoreWithin(names + ["M"], v, names, values);
    SameScoreWithin(["M", "B"], v, names, values);
    var first, next := SameScore(names + ["M"], v, names), SameScore(["M", "B"], v, names);
    assert first in [first] && next in [next];
  }

  // ------------------------------------------------------------------ the exact condition

  /** No value has the opposite sign of the margin. */
  ghost predicate SignsAgree(cfg: Config, values: set<real>) {
    forall v :: v in values ==> v * cfg.margin >= 0.0
  }

  lemma ChallengersScored(cfg: Config, current: seq<string>, input: Input, values: set<real>)
    requires Ready(current, input) && input.score.Values <= values && SignsAgree(cfg, values)
    ensures SignSound(cfg, input, Challengers(current, input))
  {
    PartsFacts(cfg, current, input);
    forall x | x in Challengers(current, input) ensures ScoreOf(input.score, x) * cfg.margin >= 0.0 {
      assert input.score[x] in input.score.Values;
    }
  }

  lemma ExactWithout(cfg: Config, values: set<real>, current: seq<string>, streaks: map<string, int>, input: Input)
    requires Ready(current, input) && input.score.Values <= values
    requires cfg.size <= 0 || cfg.maxPromotions <= 1 || SignsAgree(cfg, values)
    ensures NewMembersExact(cfg, current, streaks, input)
  {
    if cfg.size <= 0 || cfg.maxPromotions <= 1 {
      SmallIsExact(cfg, current, streaks, input);
    } else {
      ChallengersScored(cfg, current, input, values);
      NewMembersAreAdded(cfg, current, streaks, input);
    }
  }

  /** Every update of every run from a fresh manager, for scores taken from `values`. */
  ghost predicate AlwaysExact(cfg: Config, values: set<real>) {
    forall inputs, input :: ScoredWithin(inputs + [input], values) ==>
      NewMembersExact(cfg, RunOf(cfg, inputs).current, RunOf(cfg, inputs).streaks, input)
  }

  /** Every update of every duplicate-free list with any streaks, reached or not. */
  ghost predicate ExactFromAny(cfg: Config, values: set<real>) {
    forall current, streaks, input ::
      Ready(current, input) && input.score.Values <= values ==> NewMembersExact(cfg, current, streaks, input)
  }

  lemma WithinParts(inputs: seq<Input>, input: Input, values: set<real>)
    requires ScoredWithin(inputs + [input], values)
    ensures AllWellFormed(inputs) && WellFormed(input) && input.score.Values <= values
  {
    assert input in inputs + [input];
    assert forall i :: i in inputs ==> i in inputs + [input];
  }

  lemma ExactFromAnyIf(cfg: Config, values: set<real>)
    requires cfg.size <= 0 || cfg.maxPromotions <= 1 || SignsAgree(cfg, values)
    ensures ExactFromAny(cfg, values)
  {
    forall current, streaks, input | Ready(current, input) && input.score.Values <= values
      ensures NewMembersExact(cfg, current, streaks, input)
    {
      ExactWithout(cfg, values, current, streaks, input);
    }
  }

  lemma ReachedFromAny(cfg: Config, values: set<real>)
    requires ExactFromAny(cfg, values)
    ensures AlwaysExact(cfg, values)
  {
    forall inputs, input | ScoredWithin(inputs + [input], values)
      ensures NewMembersExact(cfg, RunOf(cfg, inputs).current, RunOf(cfg, inputs).streaks, input)
    {
      WithinParts(inputs, input, values);
      RunDistinct(cfg, inputs);
      assert Ready(RunOf(cfg, inputs).current, input);
    }
  }

  /** A score of the wrong sign is enough: "A" takes the place of "M", and "B" takes that of "A" at once. */
  lemma WrongSignBreaks(cfg: Config, names: seq<string>, v: real, run: Run, j: nat)
    requires cfg.size == |names| + 1 && cfg.maxPromotions >= 2 && v * cfg.margin < 0.0
    requires Spare(names) && Wooed(run, names, j) && j + 1 >= cfg.persistence
    ensures !NewMembersExact(cfg, run.current, run.streaks, TwoCandidates(names, v))
  {
    var input := TwoCandidates(names, v);
    WrongSignBeats(input, cfg.margin, v, "B", "A");
    SecondBreaks(cfg, run.current, input, run.streaks);
  }

  lemma NotAlwaysExactIf(cfg: Config, values: set<real>, v: real)
    requires cfg.size >= 1 && cfg.maxPromotions >= 2 && v in values && v * cfg.margin < 0.0
    ensures !AlwaysExact(cfg, values)
  {
    var names := Fillers(cfg.size - 1);
    var j: nat := if cfg.persistence >= 1 then cfg.persistence - 1 else 0;
    var inputs := Repeated(SameScore(names + ["M"], v, names), SameScore(["M", "B"], v, names), j);
    Wooing(cfg, names, v, j);
    WooingWithin(names, v, j, values);
    WrongSignBreaks(cfg, names, v, RunOf(cfg, inputs), j);
    TwoWithin(names, v, values);
    WithinConcat(inputs, [TwoCandidates(names, v)], values);
  }

  lemma TwoWithin(names: seq<string>, v: real, values: set<real>)
    requires Distinct(names) && v in values
    ensures ScoredWithin([TwoCandidates(names, v)], values)
  {
  }

  lemma OppositeSign(cfg: Config, values: set<real>) returns (v: real)
    requires !SignsAgree(cfg, values)
    ensures v in values && v * cfg.margin < 0.0
  {
    v :| v in values && v * cfg.margin < 0.0;
  }

  /**
   * For scores taken from a set of values, every update of every run from a fresh manager reports its new
   * members exactly, if and only if there is no slot, or at most one promotion a cycle, or no value has the
   * opposite sign of the margin; and then so does every update of any other list.
   */
  lemma NewMembersExactlyWhen(cfg: Config, values: set<real>)
    ensures AlwaysExact(cfg, values) <==> cfg.size <= 0 || cfg.maxPromotions <= 1 || SignsAgree(cfg, values)
    ensures AlwaysExact(cfg, values) <==> ExactFromAny(cfg, values)
  {
    if cfg.size <= 0 || cfg.maxPromotions <= 1 || SignsAgree(cfg, values) {
      ExactFromAnyIf(cfg, values);
      ReachedFromAny(cfg, values);
    } else {
      var v := OppositeSign(cfg, values);
      NotAlwaysExactIf(cfg, values, v);
      if ExactFromAny(cfg, values) { ReachedFromAny(cfg, values); }
    }
  }
}
