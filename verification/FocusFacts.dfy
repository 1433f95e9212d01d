/** Who stays on the focus list, who walks in and why a member leaves. */
module FocusFacts {
  import opened Common
  import opened Sorting
  import opened FocusList
  import opened FocusProofs

  // ------------------------------------------------------------------ who the parts are

  /** Protected symbols that are scored or on the list take their slots first. */
  predicate IsKept(current: seq<string>, input: Input, s: string) {
    s in input.protected && (s in input.score || s in current)
  }

  /** A scored member that is not protected. */
  predicate IsIncumbent(current: seq<string>, input: Input, s: string) {
    s in current && s in input.score && !IsKept(current, input, s)
  }

  /** A scored symbol that is neither. */
  predicate IsChallenger(current: seq<string>, input: Input, s: string) {
    s in input.score && s !in current && s !in input.protected
  }

  function Lower(a: int, b: int): int { if a <= b then a else b }

  /** What protected symbols leave of the list. */
  ghost predicate AreSlots(cfg: Config, current: seq<string>, input: Input, slots: int) {
    var kept := set s | s in input.protected && IsKept(current, input, s);
    slots == if cfg.size >= |kept| then cfg.size - |kept| else 0
  }

  /** As many of `xs` as there is room for, and nobody left out scores more than anybody taken. */
  ghost predicate TakesBest(taken: seq<string>, room: int, pool: set<string>, score: map<string, real>)
    requires pool <= score.Keys
  {
    && Distinct(taken) && (forall s :: s in taken ==> s in pool)
    && |taken| == (if room <= 0 then 0 else Lower(room, |pool|))
    && forall s, t :: s in taken && t in pool && t !in taken ==> score[s] >= score[t]
  }

  lemma {:induction false} DistinctCount(xs: seq<string>, ys: set<string>)
    requires Distinct(xs) && forall s :: s in xs <==> s in ys
    ensures |xs| == |ys|
  {
    if xs == [] {
      assert ys == {};
    } else {
      assert xs[0] !in xs[1..];
      DistinctCount(xs[1..], ys - {xs[0]});
    }
  }

  lemma SlotsAre(cfg: Config, current: seq<string>, input: Input)
    requires Ready(current, input)
    ensures AreSlots(cfg, current, input, Slots(cfg, current, input))
  {
    PartsFacts(cfg, current, input);
    DistinctCount(Keep(current, input), set s | s in input.protected && IsKept(current, input, s));
  }

  /** The first of a list sorted best first. */
  lemma FirstAreBest(sorted: seq<string>, n: nat, room: int, pool: set<string>, input: Input)
    requires Distinct(sorted) && SortedBy(sorted, Descending(input)) && (forall s :: s in sorted <==> s in pool)
    requires pool <= input.score.Keys && n == if room <= 0 then 0 else Lower(room, |sorted|)
    ensures TakesBest(sorted[..n], room, pool, input.score)
  {
    DistinctCount(sorted, pool);
    forall s, t | s in sorted[..n] && t in pool && t !in sorted[..n] ensures input.score[s] >= input.score[t] {
      var i :| 0 <= i < n && sorted[i] == s;
      var j :| 0 <= j < |sorted| && sorted[j] == t;
      assert Descending(input)(sorted[i]) <= Descending(input)(sorted[j]);
    }
  }

  lemma RetainedIsPrefix(cfg: Config, current: seq<string>, input: Input)
    requires Ready(current, input)
    ensures var pool := set s | s in current && IsIncumbent(current, input, s);
      TakesBest(Retained(cfg, current, input), Slots(cfg, current, input), pool, input.score)
  {
    var pool := set s | s in current && IsIncumbent(current, input, s);
    var sorted := SortBy(Incumbents(current, input), Descending(input));
    PartsFacts(cfg, current, input);
    SortFacts(Incumbents(current, input), Descending(input));
    SortDistinct(Incumbents(current, input), Descending(input));
    FirstAreBest(sorted, |Retained(cfg, current, input)|, Slots(cfg, current, input), pool, input);
    assert Retained(cfg, current, input) == sorted[..|Retained(cfg, current, input)|];
  }

  lemma FilledIsPrefix(cfg: Config, current: seq<string>, input: Input)
    requires Ready(current, input)
    ensures var pool := set s | s in input.score && IsChallenger(current, input, s);
      var free := Slots(cfg, current, input) - |Retained(cfg, current, input)|;
      TakesBest(Challengers(current, input)[..FillCount(cfg, current, input)], Lower(free, cfg.maxPromotions), pool,
                input.score)
  {
    var pool := set s | s in input.score && IsChallenger(current, input, s);
    PartsFacts(cfg, current, input);
    FirstAreBest(Challengers(current, input), FillCount(cfg, current, input),
                 Lower(Slots(cfg, current, input) - |Retained(cfg, current, input)|, cfg.maxPromotions), pool, input);
  }

  /**
   * Before anything is contested: protected symbols take their slots; of the other scored members the best
   * keep theirs, as many as fit; and the best challengers walk into what is free, up to the promotion cap.
   */
  lemma OpeningSelects(cfg: Config, current: seq<string>, streaks: map<string, int>, input: Input, slots: int)
    requires Ready(current, input) && AreSlots(cfg, current, input, slots)
    ensures var c := Opening(cfg, current, streaks, input);
      var incumbents := set s | s in current && IsIncumbent(current, input, s);
      var challengers := set s | s in input.score && IsChallenger(current, input, s);
      && |c.added| <= |c.retained|
      && var stay := c.retained[..|c.retained| - |c.added|];
         && c.retained == stay + c.added && TakesBest(stay, slots, incumbents, input.score)
         && TakesBest(c.added, Lower(slots - |stay|, cfg.maxPromotions), challengers, input.score)
  {
    var c := Opening(cfg, current, streaks, input);
    SlotsAre(cfg, current, input);
    RetainedIsPrefix(cfg, current, input);
    FilledIsPrefix(cfg, current, input);
    assert c.retained[..|c.retained| - |c.added|] == Retained(cfg, current, input);
  }

  // ------------------------------------------------------------------ who leaves

  ghost predicate Displaced(trace: seq<Compare>, s: string) {
    exists i :: 0 <= i < |trace| && trace[i].displaced && trace[i].member == s
  }

  lemma RemoveKeepsOthers(xs: seq<string>, x: string, y: string)
    requires y in xs && y != x
    ensures y in Remove(xs, x)
  {
    if xs[0] == x {
      assert xs == [xs[0]] + xs[1..];
    } else if xs[0] != y {
      assert xs == [xs[0]] + xs[1..];
      RemoveKeepsOthers(xs[1..], x, y);
    }
  }

  lemma ChallengeRetains(cfg: Config, input: Input, c: Contest, s: string, m: string)
    requires m in c.retained || Displaced(c.trace, m)
    ensures m in Challenge(cfg, input, c, s).retained || Displaced(Challenge(cfg, input, c, s).trace, m)
  {
    var next := Challenge(cfg, input, c, s);
    assert c.trace <= next.trace;
    if Displaced(c.trace, m) {
      var i :| 0 <= i < |c.trace| && c.trace[i].displaced && c.trace[i].member == m;
      assert next.trace[i] == c.trace[i];
    } else if m !in next.retained {
      var w := Weakest(c.retained, input.score);
      if m != w { RemoveKeepsOthers(c.retained, w, m); }
      assert next.trace[|c.trace|].displaced && next.trace[|c.trace|].member == m;
    }
  }

  lemma {:induction false} ContestRetains(cfg: Config, input: Input, c: Contest, challengers: seq<string>, m: string)
    requires m in c.retained
    ensures m in ChallengeAll(cfg, input, c, challengers).retained
            || Displaced(ChallengeAll(cfg, input, c, challengers).trace, m)
  {
    if challengers == [] {
    } else {
      var n := |challengers| - 1;
      ContestRetains(cfg, input, c, challengers[..n], m);
      ChallengeRetains(cfg, input, ChallengeAll(cfg, input, c, challengers[..n]), challengers[n], m);
    }
  }

  /**
   * A member leaves for one of three reasons: it is neither protected nor scored, it was displaced by a
   * challenger, or protected symbols left too few slots and every slot went to a member that scores no less.
   */
  lemma LeavesBecause(cfg: Config, current: seq<string>, streaks: map<string, int>, input: Input, slots: int, s: string)
    requires Ready(current, input) && AreSlots(cfg, current, input, slots)
    requires s in Reselect(cfg, current, streaks, input).removed
    ensures s in current && s !in Reselect(cfg, current, streaks, input).focus && s !in input.protected
    ensures s in input.score && !Displaced(Reselect(cfg, current, streaks, input).trace, s) ==>
              exists better: seq<string> :: Distinct(better) && |better| == slots
                && forall m :: m in better ==>
                     IsIncumbent(current, input, m) && input.score[m] >= input.score[s]
  {
    var c := Opening(cfg, current, streaks, input);
    PartsFacts(cfg, current, input);
    SlotsAre(cfg, current, input);
    RetainedIsPrefix(cfg, current, input);
    if s in input.score && !Displaced(Reselect(cfg, current, streaks, input).trace, s) {
      if s in Retained(cfg, current, input) {
        ContestRetains(cfg, input, c, Challengers(current, input), s);
        assert false;
      }
      var better := Retained(cfg, current, input);
      assert IsIncumbent(current, input, s);
      RetainedFull(cfg, current, input, s);
      assert |better| == slots;
    }
  }

  lemma RetainedFull(cfg: Config, current: seq<string>, input: Input, s: string)
    requires Ready(current, input) && IsIncumbent(current, input, s) && s !in Retained(cfg, current, input)
    ensures |Retained(cfg, current, input)| == Slots(cfg, current, input)
  {
    PartsFacts(cfg, current, input);
    SortFacts(Incumbents(current, input), Descending(input));
  }
}
