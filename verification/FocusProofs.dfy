/** What hysteresis guarantees, for one update and over whole runs. */
module FocusProofs {
  import opened Common
  import opened Sorting
  import opened FocusList

  // ------------------------------------------------------------------ list facts

  lemma {:induction false} RemoveFacts(xs: seq<string>, x: string)
    requires Distinct(xs) && x in xs
    ensures Distinct(Remove(xs, x)) && |Remove(xs, x)| == |xs| - 1
    ensures forall y :: y in Remove(xs, x) <==> y in xs && y != x
  {
    if xs[0] == x {
      assert forall y :: y in xs[1..] ==> y != x;
    } else {
      RemoveFacts(xs[1..], x);
      forall i | 0 <= i < |Remove(xs[1..], x)| ensures Remove(xs[1..], x)[i] != xs[0] {
        assert Remove(xs[1..], x)[i] in xs[1..];
      }
    }
  }

  lemma DistinctConcat(xs: seq<string>, ys: seq<string>)
    requires Distinct(xs) && Distinct(ys) && forall x :: x in xs ==> x !in ys
    ensures Distinct(xs + ys)
  {
    forall i, j | 0 <= i < j < |xs + ys| ensures (xs + ys)[i] != (xs + ys)[j] {
      if i < |xs| <= j {
        assert (xs + ys)[i] in xs && (xs + ys)[j] in ys;
      }
    }
  }

  // ------------------------------------------------------------------ the parts of one update

  ghost predicate Ready(current: seq<string>, input: Input) {
    Distinct(current) && WellFormed(input)
  }

  lemma PartsFacts(cfg: Config, current: seq<string>, input: Input)
    requires Ready(current, input)
    ensures Distinct(Keep(current, input)) && Distinct(Incumbents(current, input))
            && Distinct(Challengers(current, input))
    ensures forall s :: s in Keep(current, input) <==> s in input.protected && (s in input.score || s in current)
    ensures forall s :: s in Incumbents(current, input) <==>
              s in current && s in input.score && s !in Keep(current, input)
    ensures forall s :: s in Challengers(current, input) <==>
              s in input.score && s !in current && s !in Keep(current, input)
    ensures SortedBy(Challengers(current, input), Descending(input))
  {
    FilterDistinct((s: string) => s in input.score || s in current, input.protected);
    FilterDistinct((s: string) => s !in Keep(current, input) && s in input.score, current);
    var pool := Filter((s: string) => s !in Keep(current, input) && s !in Incumbents(current, input), input.symbols);
    FilterDistinct((s: string) => s !in Keep(current, input) && s !in Incumbents(current, input), input.symbols);
    SortFacts(pool, Descending(input));
    SortDistinct(pool, Descending(input));
  }

  lemma RetainedFacts(cfg: Config, current: seq<string>, input: Input)
    requires Ready(current, input)
    ensures Distinct(Retained(cfg, current, input)) && |Retained(cfg, current, input)| <= Slots(cfg, current, input)
    ensures forall s :: s in Retained(cfg, current, input) ==> s in Incumbents(current, input)
  {
    PartsFacts(cfg, current, input);
    SortFacts(Incumbents(current, input), Descending(input));
    SortDistinct(Incumbents(current, input), Descending(input));
  }

  /** What the contested phase never breaks, for the given incumbents, challengers and slots. */
  ghost predicate Tidy(incumbents: seq<string>, challengers: seq<string>, slots: nat, most: int, c: Contest) {
    && Distinct(c.retained) && |c.retained| <= slots
    && (forall s :: s in c.retained ==> s in incumbents || s in c.added)
    && (forall s :: s in c.added ==> s in challengers)
    && Distinct(c.added) && (c.added == [] || |c.added| <= most)
  }

  ghost predicate TidyIn(cfg: Config, current: seq<string>, input: Input, c: Contest) {
    Tidy(Incumbents(current, input), Challengers(current, input), Slots(cfg, current, input), cfg.maxPromotions, c)
  }

  lemma OpeningTidy(cfg: Config, current: seq<string>, streaks: map<string, int>, input: Input)
    requires Ready(current, input)
    ensures TidyIn(cfg, current, input, Opening(cfg, current, streaks, input))
  {
    PartsFacts(cfg, current, input);
    RetainedFacts(cfg, current, input);
    var fill := Challengers(current, input)[..FillCount(cfg, current, input)];
    assert forall s :: s in fill ==> s in Challengers(current, input);
    DistinctConcat(Retained(cfg, current, input), fill);
  }

  lemma SwapTidy(incumbents: seq<string>, challengers: seq<string>, slots: nat, most: int, c: Contest, w: string,
      s: string, streaks: map<string, int>, trace: seq<Compare>)
    requires Tidy(incumbents, challengers, slots, most, c) && w in c.retained
    requires s in challengers && s !in incumbents && s !in c.added && |c.added| < most
    ensures Tidy(incumbents, challengers, slots, most,
                    Contest(Remove(c.retained, w) + [s], c.added + [s], streaks, trace, false))
  {
    RemoveFacts(c.retained, w);
    DistinctConcat(Remove(c.retained, w), [s]);
    DistinctConcat(c.added, [s]);
  }

  lemma {:induction false} ChallengeAllTidy(cfg: Config, current: seq<string>, input: Input, c: Contest,
      todo: seq<string>)
    requires Ready(current, input) && TidyIn(cfg, current, input, c)
    requires forall s :: s in todo ==> s in Challengers(current, input)
    ensures TidyIn(cfg, current, input, ChallengeAll(cfg, input, c, todo))
  {
    if todo == [] {
    } else {
      var n := |todo| - 1;
      ChallengeAllTidy(cfg, current, input, c, todo[..n]);
      ChallengeTidy(cfg, current, input, ChallengeAll(cfg, input, c, todo[..n]), todo[n]);
    }
  }

  lemma ChallengeKeepsOrder(cfg: Config, input: Input, c: Contest, s: string,
      incumbents: seq<string>, challengers: seq<string>, slots: nat)
    requires Tidy(incumbents, challengers, slots, cfg.maxPromotions, c) && s in challengers && s !in incumbents
    ensures Tidy(incumbents, challengers, slots, cfg.maxPromotions, Challenge(cfg, input, c, s))
  {
    if c.retained != [] && s !in c.added && |c.added| < cfg.maxPromotions {
      var after := Challenge(cfg, input, c, s);
      SwapTidy(incumbents, challengers, slots, cfg.maxPromotions, c, Weakest(c.retained, input.score), s,
                  after.streaks, after.trace);
    }
  }

  lemma ChallengeTidy(cfg: Config, current: seq<string>, input: Input, c: Contest, s: string)
    requires Ready(current, input) && TidyIn(cfg, current, input, c) && s in Challengers(current, input)
    ensures TidyIn(cfg, current, input, Challenge(cfg, input, c, s))
  {
    PartsFacts(cfg, current, input);
    ChallengeKeepsOrder(cfg, input, c, s, Incumbents(current, input), Challengers(current, input),
                        Slots(cfg, current, input));
  }

  lemma ClosingTidy(cfg: Config, current: seq<string>, streaks: map<string, int>, input: Input)
    requires Ready(current, input)
    ensures TidyIn(cfg, current, input, Closing(cfg, current, streaks, input))
    ensures forall s :: s in Closing(cfg, current, streaks, input).retained ==> s !in Keep(current, input)
    ensures Reselect(cfg, current, streaks, input).focus
         == Keep(current, input) + Closing(cfg, current, streaks, input).retained
  {
    PartsFacts(cfg, current, input);
    OpeningTidy(cfg, current, streaks, input);
    ChallengeAllTidy(cfg, current, input, Opening(cfg, current, streaks, input), Challengers(current, input));
    FilterAll((s: string) => s !in Keep(current, input), Closing(cfg, current, streaks, input).retained);
  }

  /**
   * Every update of a duplicate-free list gives a duplicate-free list, no longer than the configured
   * size or the kept protected symbols, holding every protected symbol that is scored or was a member,
   * and reports at most the allowed number of promotions.
   */
  lemma UpdateKeepsShape(cfg: Config, current: seq<string>, streaks: map<string, int>, input: Input)
    requires Ready(current, input)
    ensures var o := Reselect(cfg, current, streaks, input);
      && Distinct(o.focus)
      && (|o.focus| <= cfg.size || |o.focus| == |Keep(current, input)|)
      && (forall s :: s in input.protected && (s in input.score || s in current) ==> s in o.focus)
      && (forall s :: s in o.focus ==> s in input.score || s in current)
      && (o.added == [] || |o.added| <= cfg.maxPromotions)
      && (forall s :: s in o.removed <==> s in current && s !in o.focus)
  {
    PartsFacts(cfg, current, input);
    ClosingTidy(cfg, current, streaks, input);
    DistinctConcat(Keep(current, input), Closing(cfg, current, streaks, input).retained);
  }

  // ------------------------------------------------------------------ non-negative scores

  ghost predicate NonNegative(cfg: Config, input: Input) {
    cfg.margin >= 0.0 && forall s :: s in input.score ==> input.score[s] >= 0.0
  }

  /**
   * A member is only ever beaten by a strictly better challenger exactly when its score and the margin
   * do not have opposite signs.
   */
  lemma MarginSoundExactlyWhen(w: real, margin: real)
    ensures (forall c: real :: Clears(c, w, margin) ==> c > w) <==> w * margin >= 0.0
  {
    assert w * (1.0 + margin) == w + w * margin;
    assert Clears(w, w, margin) <==> w * margin < 0.0;
  }

  /** The margin raises the bar of none of these symbols' scores the wrong way. */
  ghost predicate SignSound(cfg: Config, input: Input, xs: seq<string>) {
    forall x :: x in xs ==> ScoreOf(input.score, x) * cfg.margin >= 0.0
  }

  lemma NonNegativeSound(cfg: Config, input: Input, x: string)
    requires NonNegative(cfg, input)
    ensures ScoreOf(input.score, x) * cfg.margin >= 0.0
  {
  }

  lemma BeatsIsBetter(cfg: Config, input: Input, s: string, w: string)
    requires ScoreOf(input.score, w) * cfg.margin >= 0.0 && Beats(input.score, cfg.margin, s, w)
    ensures ScoreOf(input.score, s) > ScoreOf(input.score, w)
  {
    MarginSoundExactlyWhen(ScoreOf(input.score, w), cfg.margin);
  }

  /** Everything promoted so far is still in, and none of it scores below a challenger yet to come. */
  ghost predicate PromotedStay(input: Input, c: Contest, rest: seq<string>) {
    && (forall a :: a in c.added ==> a in c.retained)
    && (forall a, s :: a in c.added && s in rest && s !in c.added ==>
          ScoreOf(input.score, a) >= ScoreOf(input.score, s))
  }

  lemma ChallengeKeepsPromoted(cfg: Config, input: Input, c: Contest, s: string, rest: seq<string>)
    requires Distinct(c.retained) && SignSound(cfg, input, c.added)
    requires rest != [] && rest[0] == s && PromotedStay(input, c, rest)
    requires forall t :: t in rest ==> ScoreOf(input.score, s) >= ScoreOf(input.score, t)
    ensures PromotedStay(input, Challenge(cfg, input, c, s), rest[1..])
  {
    if c.retained != [] {
      var w := Weakest(c.retained, input.score);
      RemoveFacts(c.retained, w);
      if s !in c.added && Beats(input.score, cfg.margin, s, w) {
        assert s in rest;
        if w in c.added { BeatsIsBetter(cfg, input, s, w); }
        assert w !in c.added;
      }
    }
  }

  /** In a list sorted best first, earlier means at least as good. */
  lemma EarlierIsBetter(input: Input, ch: seq<string>, k: nat, a: string, s: string)
    requires SortedBy(ch, Descending(input)) && k <= |ch| && a in ch[..k] && s in ch[k..]
    ensures ScoreOf(input.score, a) >= ScoreOf(input.score, s)
  {
    var i :| 0 <= i < k && ch[i] == a;
    var j :| k <= j < |ch| && ch[j] == s;
    assert Descending(input)(ch[i]) <= Descending(input)(ch[j]);
  }

  lemma OpeningPromoted(cfg: Config, current: seq<string>, streaks: map<string, int>, input: Input)
    requires Ready(current, input)
    ensures PromotedStay(input, Opening(cfg, current, streaks, input), Challengers(current, input))
  {
    PartsFacts(cfg, current, input);
    var ch, k := Challengers(current, input), FillCount(cfg, current, input);
    assert ch == ch[..k] + ch[k..];
    forall a, s | a in ch[..k] && s in ch && s !in ch[..k] ensures ScoreOf(input.score, a) >= ScoreOf(input.score, s) {
      EarlierIsBetter(input, ch, k, a, s);
    }
  }

  lemma BestOfRest(input: Input, ch: seq<string>, n: nat)
    requires SortedBy(ch, Descending(input)) && n < |ch|
    ensures forall t :: t in ch[n..] ==> ScoreOf(input.score, ch[n]) >= ScoreOf(input.score, t)
  {
    forall t | t in ch[n..] ensures ScoreOf(input.score, ch[n]) >= ScoreOf(input.score, t) {
      var j :| n <= j < |ch| && ch[j] == t;
      if j > n { assert Descending(input)(ch[n]) <= Descending(input)(ch[j]); }
    }
  }

  /** Members once each, and only challengers promoted. */
  ghost predicate Proper(c: Contest, ch: seq<string>) {
    Distinct(c.retained) && forall a :: a in c.added ==> a in ch
  }

  lemma PromotedStayNext(cfg: Config, input: Input, c: Contest, ch: seq<string>, n: nat)
    requires SignSound(cfg, input, ch) && SortedBy(ch, Descending(input)) && n < |ch|
    requires PromotedStay(input, c, ch[n..]) && Proper(c, ch)
    ensures PromotedStay(input, Challenge(cfg, input, c, ch[n]), ch[n + 1..])
  {
    BestOfRest(input, ch, n);
    assert ch[n..][1..] == ch[n + 1..];
    ChallengeKeepsPromoted(cfg, input, c, ch[n], ch[n..]);
  }

  /** The state before each challenger in turn. */
  ghost predicate ProperThrough(cfg: Config, input: Input, opening: Contest, ch: seq<string>, n: nat)
    requires n <= |ch|
  {
    n == 0
    || (Proper(ChallengeAll(cfg, input, opening, ch[..n - 1]), ch) && ProperThrough(cfg, input, opening, ch, n - 1))
  }

  lemma {:induction false} PromotedStayAll(cfg: Config, input: Input, opening: Contest, ch: seq<string>, n: nat)
    requires SignSound(cfg, input, ch) && SortedBy(ch, Descending(input)) && n <= |ch|
    requires PromotedStay(input, opening, ch) && ProperThrough(cfg, input, opening, ch, n)
    ensures PromotedStay(input, ChallengeAll(cfg, input, opening, ch[..n]), ch[n..])
  {
    if n == 0 {
      assert ch[0..] == ch;
    } else {
      PromotedStayAll(cfg, input, opening, ch, n - 1);
      assert ch[..n][..n - 1] == ch[..n - 1];
      PromotedStayNext(cfg, input, ChallengeAll(cfg, input, opening, ch[..n - 1]), ch, n - 1);
    }
  }

  lemma {:induction false} OpeningProperThrough(cfg: Config, current: seq<string>, streaks: map<string, int>,
      input: Input, n: nat)
    requires Ready(current, input) && n <= |Challengers(current, input)|
    ensures ProperThrough(cfg, input, Opening(cfg, current, streaks, input), Challengers(current, input), n)
  {
    if n == 0 {
    } else {
      OpeningProperThrough(cfg, current, streaks, input, n - 1);
      OpeningTidy(cfg, current, streaks, input);
      ChallengeAllTidy(cfg, current, input, Opening(cfg, current, streaks, input),
                          Challengers(current, input)[..n - 1]);
    }
  }

  /** The symbols that became members are exactly the added ones and the newly kept. */
  ghost predicate NewMembersExact(cfg: Config, current: seq<string>, streaks: map<string, int>, input: Input) {
    var o := Reselect(cfg, current, streaks, input);
    forall s :: s in o.focus && s !in current <==> s in o.added || (s in Keep(current, input) && s !in current)
  }

  /** Whatever the scores, nobody becomes a member unreported; and all is exact once the added ones all stayed. */
  lemma NewMembersIfAllStay(cfg: Config, current: seq<string>, streaks: map<string, int>, input: Input)
    requires Ready(current, input)
    requires var c := Closing(cfg, current, streaks, input); forall a :: a in c.added ==> a in c.retained
    ensures NewMembersExact(cfg, current, streaks, input)
  {
    PartsFacts(cfg, current, input);
    ClosingTidy(cfg, current, streaks, input);
  }

  /**
   * When the margin does not invert for any challenger, the symbols that became members are exactly those
   * reported as added, plus kept protected symbols that were not members before.
   */
  lemma NewMembersAreAdded(cfg: Config, current: seq<string>, streaks: map<string, int>, input: Input)
    requires Ready(current, input) && SignSound(cfg, input, Challengers(current, input))
    ensures NewMembersExact(cfg, current, streaks, input)
  {
    var ch := Challengers(current, input);
    PartsFacts(cfg, current, input);
    var opening := Opening(cfg, current, streaks, input);
    OpeningPromoted(cfg, current, streaks, input);
    OpeningProperThrough(cfg, current, streaks, input, |ch|);
    PromotedStayAll(cfg, input, opening, ch, |ch|);
    assert ch[..|ch|] == ch;
    NewMembersIfAllStay(cfg, current, streaks, input);
  }

  // ------------------------------------------------------------------ total score

  function Total(score: map<string, real>, xs: seq<string>): real {
    if xs == [] then 0.0 else ScoreOf(score, xs[0]) + Total(score, xs[1..])
  }

  lemma {:induction false} TotalAppend(score: map<string, real>, xs: seq<string>, s: string)
    ensures Total(score, xs + [s]) == Total(score, xs) + ScoreOf(score, s)
  {
    if xs == [] {
      assert xs + [s] == [s] && [s][1..] == [];
    } else {
      assert (xs + [s])[1..] == xs[1..] + [s];
      TotalAppend(score, xs[1..], s);
    }
  }

  lemma {:induction false} TotalRemove(score: map<string, real>, xs: seq<string>, w: string)
    requires w in xs
    ensures Total(score, Remove(xs, w)) == Total(score, xs) - ScoreOf(score, w)
  {
    if xs[0] == w {
    } else {
      TotalRemove(score, xs[1..], w);
    }
  }

  ghost predicate Displacement(trace: seq<Compare>) {
    exists e :: e in trace && e.displaced
  }

  lemma SwapTotal(score: map<string, real>, xs: seq<string>, w: string, s: string)
    requires w in xs
    ensures Total(score, Remove(xs, w) + [s]) == Total(score, xs) - ScoreOf(score, w) + ScoreOf(score, s)
  {
    TotalRemove(score, xs, w);
    TotalAppend(score, Remove(xs, w), s);
  }

  lemma ChallengeTotal(cfg: Config, input: Input, c: Contest, s: string)
    requires NonNegative(cfg, input)
    ensures var d := Challenge(cfg, input, c, s);
      || (d.retained == c.retained && (Displacement(d.trace) ==> Displacement(c.trace)))
      || Total(input.score, d.retained) > Total(input.score, c.retained)
  {
    if c.retained != [] && s !in c.added {
      var w := Weakest(c.retained, input.score);
      SwapTotal(input.score, c.retained, w, s);
      if Beats(input.score, cfg.margin, s, w) {
        NonNegativeSound(cfg, input, w);
        BeatsIsBetter(cfg, input, s, w);
      }
    }
  }

  /** With non-negative scores the contested phase never lowers the total score, and any displacement raises it. */
  lemma {:induction false} DisplacementRaisesTotal(cfg: Config, input: Input, c: Contest, challengers: seq<string>)
    requires NonNegative(cfg, input) && !Displacement(c.trace)
    ensures var d := ChallengeAll(cfg, input, c, challengers);
      && Total(input.score, d.retained) >= Total(input.score, c.retained)
      && (Displacement(d.trace) ==> Total(input.score, d.retained) > Total(input.score, c.retained))
  {
    if challengers == [] {
    } else {
      var n := |challengers| - 1;
      DisplacementRaisesTotal(cfg, input, c, challengers[..n]);
      ChallengeTotal(cfg, input, ChallengeAll(cfg, input, c, challengers[..n]), challengers[n]);
    }
  }

  // ------------------------------------------------------------------ hysteresis over whole runs

  /** What one update leaves behind for the record: its margin tests, the members, and who was scored. */
  datatype Record = Record(trace: seq<Compare>, focus: seq<string>, scored: set<string>)

  datatype Run = Run(current: seq<string>, streaks: map<string, int>, history: seq<Record>)

  function Advance(cfg: Config, run: Run, input: Input): Run {
    var o := Reselect(cfg, run.current, run.streaks, input);
    Run(o.focus, o.streaks, run.history + [Record(o.trace, o.focus, input.score.Keys)])
  }

  /** A run from a fresh manager. */
  function RunOf(cfg: Config, inputs: seq<Input>): Run {
    if inputs == [] then Run([], map[], [])
    else Advance(cfg, RunOf(cfg, inputs[..|inputs| - 1]), inputs[|inputs| - 1])
  }

  /** Margin tests won by `s` since it last lost one or displaced someone, starting from `before`. */
  function WonIn(trace: seq<Compare>, s: string, before: int): int {
    if trace == [] then before
    else
      var n := |trace| - 1;
      var k := WonIn(trace[..n], s, before);
      if trace[n].challenger != s then k
      else if trace[n].won && !trace[n].displaced then k + 1
      else 0
  }

  /**
   * Margin tests won by `s` over the whole history, since it last lost one, displaced someone, was a
   * member, or was not scored.
   */
  function Wins(history: seq<Record>, s: string): int {
    if history == [] then 0
    else
      var n := |history| - 1;
      if s in history[n].focus || s !in history[n].scored then 0
      else WonIn(history[n].trace, s, Wins(history[..n], s))
  }

  /** A trace in which a win displaces exactly when it is the `persistence`-th in a row. */
  ghost predicate Patient(persistence: int, trace: seq<Compare>, streaks: map<string, int>) {
    forall t :: 0 <= t < |trace| ==>
      var e := trace[t];
      var k := WonIn(trace[..t], e.challenger, StreakOf(streaks, e.challenger));
      && 0 <= k < persistence
      && (e.displaced <==> e.won && k + 1 == persistence)
  }

  ghost predicate Bounded(persistence: int, streaks: map<string, int>) {
    forall s :: s in streaks ==> 1 <= streaks[s] < persistence
  }

  /** The stored streaks are the running counts, and every displacement so far was earned. */
  ghost predicate Counted(cfg: Config, before: map<string, int>, c: Contest) {
    && Bounded(cfg.persistence, c.streaks)
    && Patient(cfg.persistence, c.trace, before)
    && forall s :: StreakOf(c.streaks, s) == WonIn(c.trace, s, StreakOf(before, s))
  }

  lemma TestCounted(cfg: Config, before: map<string, int>, c: Contest, e: Compare, after: Contest)
    requires Counted(cfg, before, c) && cfg.persistence >= 1 && after.trace == c.trace + [e]
    requires e.displaced <==> e.won && StreakOf(c.streaks, e.challenger) + 1 == cfg.persistence
    requires after.streaks == if e.won && !e.displaced
                              then c.streaks[e.challenger := StreakOf(c.streaks, e.challenger) + 1]
                              else c.streaks - {e.challenger}
    ensures Counted(cfg, before, after)
  {
    var n := |c.trace|;
    assert after.trace[..n] == c.trace;
    forall t | 0 <= t < |after.trace|
      ensures 0 <= WonIn(after.trace[..t], after.trace[t].challenger,
                         StreakOf(before, after.trace[t].challenger)) < cfg.persistence
      ensures after.trace[t].displaced <==>
                after.trace[t].won
                && WonIn(after.trace[..t], after.trace[t].challenger, StreakOf(before, after.trace[t].challenger)) + 1
                   == cfg.persistence
    {
      if t < n { assert after.trace[..t] == c.trace[..t] && after.trace[t] == c.trace[t]; }
    }
  }

  lemma ChallengeCounted(cfg: Config, input: Input, before: map<string, int>, c: Contest, s: string)
    requires Counted(cfg, before, c) && cfg.persistence >= 1
    ensures Counted(cfg, before, Challenge(cfg, input, c, s))
  {
    var after := Challenge(cfg, input, c, s);
    if after.trace != c.trace {
      TestCounted(cfg, before, c, after.trace[|c.trace|], after);
    }
  }

  lemma {:induction false} ContestCounted(cfg: Config, input: Input, c: Contest, challengers: seq<string>)
    requires cfg.persistence >= 1 && Bounded(cfg.persistence, c.streaks) && c.trace == []
    ensures Counted(cfg, c.streaks, ChallengeAll(cfg, input, c, challengers))
  {
    if challengers == [] {
    } else {
      var n := |challengers| - 1;
      ContestCounted(cfg, input, c, challengers[..n]);
      ChallengeCounted(cfg, input, c.streaks, ChallengeAll(cfg, input, c, challengers[..n]), challengers[n]);
    }
  }

  /**
   * In every run the stored streak of a symbol is its number of unbroken wins, lies strictly between
   * zero and the persistence threshold, and belongs to a scored symbol that is not a member.
   */
  lemma {:induction false} StreaksCountWins(cfg: Config, inputs: seq<Input>)
    requires cfg.persistence >= 1
    ensures var run := RunOf(cfg, inputs);
      && (forall s :: StreakOf(run.streaks, s) == Wins(run.history, s))
      && Bounded(cfg.persistence, run.streaks)
      && (forall s :: s in run.streaks ==> s !in run.current && inputs != [] && s in inputs[|inputs| - 1].score)
  {
    if inputs == [] {
    } else {
      var n := |inputs| - 1;
      var run := RunOf(cfg, inputs[..n]);
      StreaksCountWins(cfg, inputs[..n]);
      ContestCounted(cfg, inputs[n], Opening(cfg, run.current, run.streaks, inputs[n]),
                     Challengers(run.current, inputs[n]));
      var next := Advance(cfg, run, inputs[n]);
      assert next.history[..|run.history|] == run.history;
    }
  }

  lemma AdvanceAppends(cfg: Config, run: Run, input: Input)
    ensures |Advance(cfg, run, input).history| == |run.history| + 1
    ensures Advance(cfg, run, input).history[..|run.history|] == run.history
  {
  }

  lemma {:induction false} HistoryGrows(cfg: Config, inputs: seq<Input>)
    ensures |RunOf(cfg, inputs).history| == |inputs|
  {
    if inputs == [] {
    } else {
      var n := |inputs| - 1;
      HistoryGrows(cfg, inputs[..n]);
      AdvanceAppends(cfg, RunOf(cfg, inputs[..n]), inputs[n]);
    }
  }

  lemma TakeTake<T>(xs: seq<T>, n: nat, k: nat)
    requires k <= n <= |xs|
    ensures xs[..n][..k] == xs[..k]
  {
  }

  /** The first `k` records depend on the first `k` inputs only. */
  lemma {:induction false} HistoryPrefix(cfg: Config, inputs: seq<Input>, k: nat)
    requires k <= |inputs|
    ensures |RunOf(cfg, inputs).history| == |inputs|
    ensures RunOf(cfg, inputs).history[..k] == RunOf(cfg, inputs[..k]).history
    decreases |inputs|
  {
    HistoryGrows(cfg, inputs);
    var h := RunOf(cfg, inputs).history;
    if k == |inputs| {
      assert inputs[..k] == inputs && h[..k] == h;
    } else {
      var n := |inputs| - 1;
      HistoryPrefix(cfg, inputs[..n], k);
      AdvanceAppends(cfg, RunOf(cfg, inputs[..n]), inputs[n]);
      TakeTake(inputs, n, k);
      TakeTake(h, n, k);
    }
  }

  /** What update `k` records. */
  lemma HistoryAt(cfg: Config, inputs: seq<Input>, k: nat)
    requires k < |inputs|
    ensures |RunOf(cfg, inputs).history| == |inputs|
    ensures RunOf(cfg, inputs).history[..k] == RunOf(cfg, inputs[..k]).history
    ensures RunOf(cfg, inputs).history[..k + 1] == Advance(cfg, RunOf(cfg, inputs[..k]), inputs[k]).history
  {
    HistoryPrefix(cfg, inputs, k);
    HistoryPrefix(cfg, inputs, k + 1);
    TakeTake(inputs, k + 1, k);
  }

  lemma TestIsCounted(persistence: int, streaks: map<string, int>, trace: seq<Compare>, t: nat, history: seq<Record>)
    requires Patient(persistence, trace, streaks) && t < |trace|
    requires forall s :: StreakOf(streaks, s) == Wins(history, s)
    ensures var e := trace[t];
            e.displaced <==> e.won && WonIn(trace[..t], e.challenger, Wins(history, e.challenger)) + 1 == persistence
  {
    assert StreakOf(streaks, trace[t].challenger) == Wins(history, trace[t].challenger);
  }

  /**
   * Hysteresis. In any run, a challenger displaces a member on a margin test exactly when it wins that
   * test and it is its `persistence`-th win, with no lost test, no missing score and no membership in
   * between.
   */
  lemma DisplacesExactlyOnPersistence(cfg: Config, inputs: seq<Input>, k: nat, t: nat)
    requires cfg.persistence >= 1 && k < |inputs| && |RunOf(cfg, inputs).history| == |inputs|
    requires t < |RunOf(cfg, inputs).history[k].trace|
    ensures var h := RunOf(cfg, inputs).history;
            var e := h[k].trace[t];
            e.displaced
            <==> e.won && WonIn(h[k].trace[..t], e.challenger, Wins(h[..k], e.challenger)) + 1 == cfg.persistence
  {
    HistoryAt(cfg, inputs, k);
    var run, h := RunOf(cfg, inputs[..k]), RunOf(cfg, inputs).history;
    assert h[k] == h[..k + 1][k];
    StreaksCountWins(cfg, inputs[..k]);
    ContestCounted(cfg, inputs[k], Opening(cfg, run.current, run.streaks, inputs[k]),
                   Challengers(run.current, inputs[k]));
    TestIsCounted(cfg.persistence, run.streaks, h[k].trace, t, run.history);
  }
}
