/** The focus list: which symbols get a live feed, with hysteresis so that membership does not thrash. */
module FocusList {
  import opened Common
  import opened Sorting

  datatype Config = Config(size: int, margin: real, persistence: int, maxPromotions: int)

  /** One call's input: the scored symbols in the order given, their scores, and the protected symbols. */
  datatype Input = Input(symbols: seq<string>, score: map<string, real>, protected: seq<string>)

  /** One margin test: who challenged whom, whether the margin was beaten, and whether it displaced. */
  datatype Compare = Compare(challenger: string, member: string, won: bool, displaced: bool)

  datatype Contest = Contest(
    retained: seq<string>, added: seq<string>, streaks: map<string, int>, trace: seq<Compare>, stopped: bool)

  datatype Outcome = Outcome(
    focus: seq<string>, added: seq<string>, removed: seq<string>, streaks: map<string, int>, trace: seq<Compare>)

  function ScoreOf(score: map<string, real>, s: string): real {
    if s in score then score[s] else 0.0
  }

  /** The first of the lowest-scored members. */
  function Weakest(members: seq<string>, score: map<string, real>): (w: string)
    requires members != []
    ensures w in members
    ensures forall m :: m in members ==> ScoreOf(score, w) <= ScoreOf(score, m)
  {
    var n := |members| - 1;
    if n == 0 then members[0]
    else
      var w := Weakest(members[..n], score);
      assert members == members[..n] + [members[n]];
      if ScoreOf(score, members[n]) < ScoreOf(score, w) then members[n] else w
  }

  /** Python's `xs.remove(x)`: drops the first occurrence. */
  function Remove(xs: seq<string>, x: string): seq<string> {
    if xs == [] then [] else if xs[0] == x then xs[1..] else [xs[0]] + Remove(xs[1..], x)
  }

  function StreakOf(streaks: map<string, int>, s: string): int {
    if s in streaks then streaks[s] else 0
  }

  /** Does a score of `c` clear the margin over a member's score of `w`? */
  predicate Clears(c: real, w: real, margin: real) {
    c > w * (1.0 + margin)
  }

  predicate Beats(score: map<string, real>, margin: real, s: string, w: string) {
    Clears(ScoreOf(score, s), ScoreOf(score, w), margin)
  }

  /** One challenger of the contested phase. */
  function Challenge(cfg: Config, input: Input, c: Contest, s: string): Contest {
    if c.stopped || s in c.added || |c.added| >= cfg.maxPromotions then c
    else if c.retained == [] then c.(stopped := true)
    else
      var w := Weakest(c.retained, input.score);
      if w in input.protected then c.(stopped := true)
      else if !Beats(input.score, cfg.margin, s, w) then
        c.(streaks := c.streaks - {s}, trace := c.trace + [Compare(s, w, false, false)])
      else
        var streak := StreakOf(c.streaks, s) + 1;
        if streak >= cfg.persistence then
          Contest(Remove(c.retained, w) + [s], c.added + [s], c.streaks - {s},
                  c.trace + [Compare(s, w, true, true)], false)
        else
          c.(streaks := c.streaks[s := streak], trace := c.trace + [Compare(s, w, true, false)])
  }

  function ChallengeAll(cfg: Config, input: Input, c: Contest, challengers: seq<string>): Contest {
    if challengers == [] then c
    else
      var n := |challengers| - 1;
      Challenge(cfg, input, ChallengeAll(cfg, input, c, challengers[..n]), challengers[n])
  }

  function Keep(current: seq<string>, input: Input): seq<string> {
    Filter((s: string) => s in input.score || s in current, input.protected)
  }

  function Slots(cfg: Config, current: seq<string>, input: Input): nat {
    var free := cfg.size - |Keep(current, input)|;
    if free > 0 then free else 0
  }

  function Descending(input: Input): string -> real {
    (s: string) => -ScoreOf(input.score, s)
  }

  function Incumbents(current: seq<string>, input: Input): seq<string> {
    Filter((s: string) => s !in Keep(current, input) && s in input.score, current)
  }

  function Challengers(current: seq<string>, input: Input): seq<string> {
    SortBy(Filter((s: string) => s !in Keep(current, input) && s !in Incumbents(current, input), input.symbols),
           Descending(input))
  }

  /** The incumbents that fit, best first. */
  function Retained(cfg: Config, current: seq<string>, input: Input): seq<string> {
    var sorted := SortBy(Incumbents(current, input), Descending(input));
    var slots := Slots(cfg, current, input);
    if slots <= |sorted| then sorted[..slots] else sorted
  }

  /** How many of `n` challengers walk into `free` slots. */
  function FillLimit(cfg: Config, free: int, n: nat): (k: nat)
    ensures k <= n
  {
    var k := if free <= cfg.maxPromotions then free else cfg.maxPromotions;
    if k <= 0 then 0 else if k <= n then k else n
  }

  function FillCount(cfg: Config, current: seq<string>, input: Input): (n: nat)
    ensures n <= |Challengers(current, input)|
  {
    FillLimit(cfg, Slots(cfg, current, input) - |Retained(cfg, current, input)|, |Challengers(current, input)|)
  }

  /** The state in which the contested phase starts. */
  function Opening(cfg: Config, current: seq<string>, streaks: map<string, int>, input: Input): Contest {
    var filled := Challengers(current, input)[..FillCount(cfg, current, input)];
    Contest(Retained(cfg, current, input) + filled, filled, streaks, [], false)
  }

  function Closing(cfg: Config, current: seq<string>, streaks: map<string, int>, input: Input): Contest {
    ChallengeAll(cfg, input, Opening(cfg, current, streaks, input), Challengers(current, input))
  }

  function Without(xs: seq<string>, drop: seq<string>): seq<string> {
    Filter((s: string) => s !in drop, xs)
  }

  /** Forget streaks of anything that made it in or is no longer scored. */
  function Prune(streaks: map<string, int>, focus: seq<string>, score: map<string, real>): map<string, int> {
    map s | s in streaks && s !in focus && s in score :: streaks[s]
  }

  /** One whole `update`. */
  function Reselect(cfg: Config, current: seq<string>, streaks: map<string, int>, input: Input): Outcome {
    var keep := Keep(current, input);
    var c := Closing(cfg, current, streaks, input);
    var focus := keep + Without(c.retained, keep);
    Outcome(focus, c.added, Without(current, focus), Prune(c.streaks, focus, input.score), c.trace)
  }

  /** Feature and protected symbols come without duplicates, and exactly the feature symbols are scored. */
  ghost predicate WellFormed(input: Input) {
    && Distinct(input.symbols) && Distinct(input.protected)
    && forall s :: s in input.symbols <==> s in input.score
  }

  // ------------------------------------------------------------------ the manager

  class FocusListManager {
    const cfg: Config
    var current: seq<string>
    var streaks: map<string, int>

    constructor (cfg: Config)
      ensures this.cfg == cfg && current == [] && streaks == map[]
    {
      this.cfg, current, streaks := cfg, [], map[];
    }

    /** Free slots are filled immediately; nobody is displaced. */
    method FillFreeSlots(kept: seq<string>, challengers: seq<string>, slots: nat)
      returns (retained: seq<string>, added: seq<string>)
      requires |kept| <= slots
      ensures var n := FillLimit(cfg, slots - |kept|, |challengers|);
              n <= |challengers| && added == challengers[..n] && retained == kept + challengers[..n]
    {
      retained, added := kept, [];
      var free := slots - |kept|;
      for i := 0 to |challengers|
        invariant added == challengers[..i] && retained == kept + challengers[..i] && free == slots - |kept| - i
        invariant i <= FillLimit(cfg, slots - |kept|, |challengers|)
      {
        if free <= 0 || |added| >= cfg.maxPromotions {
          return;
        }
        retained := retained + [challengers[i]];
        added := added + [challengers[i]];
        free := free - 1;
      }
    }

    /** Contested slots: a challenger must beat the weakest member, and keep beating it. */
    method Contend(input: Input, challengers: seq<string>, filled: seq<string>, fill: seq<string>)
      returns (retained: seq<string>, added: seq<string>, ghost trace: seq<Compare>)
      modifies this`streaks
      ensures var c := ChallengeAll(cfg, input, Contest(filled, fill, old(streaks), [], false), challengers);
              retained == c.retained && added == c.added && streaks == c.streaks && trace == c.trace
    {
      ghost var opening := Contest(filled, fill, streaks, [], false);
      retained, added, trace := filled, fill, [];
      assert ChallengeAll(cfg, input, opening, challengers[..0]) == opening;
      for i := 0 to |challengers|
        invariant ChallengeAll(cfg, input, opening, challengers[..i]) == Contest(retained, added, streaks, trace, false)
      {
        assert challengers[..i + 1][..i] == challengers[..i];
        var s := challengers[i];
        if s in added || |added| >= cfg.maxPromotions {
          continue;
        }
        if retained == [] {
          StopsForGood(cfg, input, opening, challengers, i + 1);
          return;
        }
        var w := Weakest(retained, input.score);
        if w in input.protected {
          StopsForGood(cfg, input, opening, challengers, i + 1);
          return;
        }
        if Beats(input.score, cfg.margin, s, w) {
          var streak := StreakOf(streaks, s) + 1;
          trace := trace + [Compare(s, w, true, streak >= cfg.persistence)];
          if streak >= cfg.persistence {
            retained := Remove(retained, w) + [s];
            added := added + [s];
            streaks := streaks - {s};
          } else {
            streaks := streaks[s := streak];
          }
        } else {
          streaks := streaks - {s};
          trace := trace + [Compare(s, w, false, false)];
        }
      }
      assert challengers[..|challengers|] == challengers;
    }

    method Update(input: Input)
      returns (focus: seq<string>, added: seq<string>, removed: seq<string>, ghost trace: seq<Compare>)
      requires WellFormed(input)
      modifies this
      ensures Outcome(focus, added, removed, streaks, trace) == Reselect(cfg, old(current), old(streaks), input)
      ensures current == focus
    {
      var keep := Keep(current, input);
      var challengers := Challengers(current, input);
      var kept := Retained(cfg, current, input);
      var filled, fill := FillFreeSlots(kept, challengers, Slots(cfg, current, input));
      var retained;
      retained, added, trace := Contend(input, challengers, filled, fill);
      focus := keep + Without(retained, keep);
      removed := Without(current, focus);
      streaks := Prune(streaks, focus, input.score);
      current := focus;
    }
  }

  /** Once the contested phase breaks off, the remaining challengers change nothing. */
  lemma {:induction false} StopsForGood(cfg: Config, input: Input, c: Contest, challengers: seq<string>, n: nat)
    requires n <= |challengers| && ChallengeAll(cfg, input, c, challengers[..n]).stopped
    ensures ChallengeAll(cfg, input, c, challengers) == ChallengeAll(cfg, input, c, challengers[..n])
    decreases |challengers| - n
  {
    if n == |challengers| {
      assert challengers[..n] == challengers;
    } else {
      assert challengers[..n + 1][..n] == challengers[..n];
      StopsForGood(cfg, input, c, challengers, n + 1);
    }
  }
}
