/** What trimming the raw series does to the series in memory, exactly. */
module BarTrims {
  import opened Sorting
  import opened Bars
  import opened BarStream

  // ------------------------------------------------------------------ a cut inside a period

  /** Where the period that bar `d` falls in begins. */
  function PeriodFrom(bars: seq<Bar>, d: nat, start: real -> int): (a: nat)
    requires d < |bars|
    ensures a <= d && start(bars[a].ts) == start(bars[d].ts)
    ensures a > 0 ==> start(bars[a - 1].ts) != start(bars[a].ts)
    ensures forall i :: a <= i <= d ==> start(bars[i].ts) == start(bars[d].ts)
  {
    if d > 0 && start(bars[d - 1].ts) == start(bars[d].ts) then PeriodFrom(bars, d - 1, start) else d
  }

  /** Where it ends. */
  function PeriodTo(bars: seq<Bar>, d: nat, start: real -> int): (e: nat)
    requires d < |bars|
    ensures d < e <= |bars|
  {
    d + RunLength(bars[d..], start)
  }

  /** The rest of the period that bar `d` falls in rolls up to the same bar as the whole of it. */
  predicate SameBar(bars: seq<Bar>, d: nat, start: real -> int, period: int)
    requires d < |bars|
  {
    var k, e := start(bars[d].ts), PeriodTo(bars, d, start);
    MakeBar(bars[d..e], k, period) == MakeBar(bars[PeriodFrom(bars, d, start)..e], k, period)
  }

  lemma RunFromStart(bars: seq<Bar>, a: nat, d: nat, start: real -> int)
    requires a <= d < |bars| && forall i :: a <= i <= d ==> start(bars[i].ts) == start(bars[d].ts)
    ensures RunLength(bars[a..], start) == d - a + RunLength(bars[d..], start)
  {
    var n := RunLength(bars[d..], start);
    RunFacts(bars[d..], start);
    var head := bars[a..][..d - a + n];
    forall i | 0 <= i < |head| ensures start(head[i].ts) == start(bars[a].ts) {
      if i >= d - a { assert head[i] == bars[d..][..n][i - (d - a)]; }
    }
    assert d + n < |bars| ==> bars[d..][n] == bars[d + n];
    RunLengthIs(bars[a..], start, d - a + n);
  }

  lemma RollAt(bars: seq<Bar>, i: nat, e: nat, start: real -> int, period: int)
    requires i < e <= |bars| && e == i + RunLength(bars[i..], start)
    ensures Roll(bars[i..], start, period)
         == [MakeBar(bars[i..e], start(bars[i].ts), period)] + Roll(bars[e..], start, period)
  {
    RollSplit(bars[i..], start, period);
    assert bars[i..][..e - i] == bars[i..e] && bars[i..][e - i..] == bars[e..];
  }

  /** A cut at `d` and a cut where its period begins leave the same but for the first bar. */
  lemma CutRolls(bars: seq<Bar>, d: nat, start: real -> int, period: int)
    requires d < |bars|
    ensures var a, k, e := PeriodFrom(bars, d, start), start(bars[d].ts), PeriodTo(bars, d, start);
      && Roll(bars[d..], start, period) == [MakeBar(bars[d..e], k, period)] + Roll(bars[e..], start, period)
      && Roll(bars[a..], start, period) == [MakeBar(bars[a..e], k, period)] + Roll(bars[e..], start, period)
  {
    var a, e := PeriodFrom(bars, d, start), PeriodTo(bars, d, start);
    RunFromStart(bars, a, d, start);
    RollAt(bars, d, e, start, period);
    RollAt(bars, a, e, start, period);
  }

  lemma WholeFromPeriod(bars: seq<Bar>, d: nat, start: real -> int, period: int)
    requires d < |bars|
    ensures var a := PeriodFrom(bars, d, start);
      Roll(bars, start, period) == Roll(bars[..a], start, period) + Roll(bars[a..], start, period)
  {
    var a := PeriodFrom(bars, d, start);
    assert bars == bars[..a] + bars[a..];
    RollConcat(bars[..a], bars[a..], start, period);
  }

  // ------------------------------------------------------------------ what memory shows of it

  /**
   * Two series with the same end and different bars before it agree on the last `m` exactly when those are
   * out of sight.
   */
  lemma SameEnd(x: seq<Bar>, y: seq<Bar>, b: Bar, c: Bar, later: seq<Bar>, m: nat)
    ensures |later| >= m ==> Last(x + ([b] + later), m) == Last(y + ([c] + later), m)
    ensures |later| < m && b != c ==> Last(x + ([b] + later), m) != Last(y + ([c] + later), m)
  {
    var u, v := x + ([b] + later), y + ([c] + later);
    if |later| >= m {
      assert u[|u| - m..] == later[|later| - m..] == v[|v| - m..];
    } else {
      var r, q := Last(u, m), Last(v, m);
      assert r[|r| - |later| - 1] == b && q[|q| - |later| - 1] == c;
    }
  }

  /** After the first `n` bars, the series in memory is the batch of them. */
  ghost predicate AgreesAfter(history: seq<Bar>, bars: seq<Bar>, n: nat, memory: nat)
    requires 0 < n <= |bars|
  {
    Streamed(history, bars[..n], memory).intraday == Last(Batch(history, bars[..n]), memory)
  }

  /** Every period of the kept raw bars is remembered. */
  ghost predicate Fits(bars: seq<Bar>, memory: nat) {
    |Aggregate(bars[Dropped(|bars|)..], INTRADAY_PERIOD)| <= memory
  }

  /** The latest trim cut no period, or one that is out of memory, or took nothing from its bar. */
  ghost predicate Harmless(bars: seq<Bar>, memory: nat)
    requires bars != []
  {
    || CleanCut(bars, Starts(INTRADAY_PERIOD))
    || !Fits(bars, memory)
    || SameBar(bars, Dropped(|bars|), Starts(INTRADAY_PERIOD), INTRADAY_PERIOD)
  }

  lemma KeptSorted(bars: seq<Bar>, d: nat)
    requires SortedBy(bars, Stamp) && d < |bars|
    ensures SortedBy(bars[d..], Stamp) && bars[d..] != []
    ensures Aggregate(bars[d..], INTRADAY_PERIOD) == Roll(bars[d..], Starts(INTRADAY_PERIOD), INTRADAY_PERIOD)
  {
    SliceSorted(bars, d, |bars|);
    assert bars[d..|bars|] == bars[d..];
    AggregateSorted(bars[d..]);
  }

  /** The remembered series: what stands before the cut period, its bar, and what follows. */
  lemma KeptEnd(was: seq<Bar>, bars: seq<Bar>, d: nat, memory: nat)
    requires SortedBy(bars, Stamp) && d < |bars|
    ensures var start, k, e := Starts(INTRADAY_PERIOD), Starts(INTRADAY_PERIOD)(bars[d].ts),
                               PeriodTo(bars, d, Starts(INTRADAY_PERIOD));
            var later := Roll(bars[e..], start, INTRADAY_PERIOD);
      && Replace(was, bars[d..], memory)
         == Last(Before(was, k as real) + ([MakeBar(bars[d..e], k, INTRADAY_PERIOD)] + later), memory)
      && |later| + 1 == |Aggregate(bars[d..], INTRADAY_PERIOD)|
  {
    KeptSorted(bars, d);
    ReplaceSorted(was, bars[d..], memory);
    CutRolls(bars, d, Starts(INTRADAY_PERIOD), INTRADAY_PERIOD);
  }

  /** The batch, cut up the same way. */
  lemma BatchEnd(history: seq<Bar>, bars: seq<Bar>, d: nat) returns (y: seq<Bar>)
    requires SortedBy(bars, Stamp) && d < |bars|
    ensures var start, k, e := Starts(INTRADAY_PERIOD), Starts(INTRADAY_PERIOD)(bars[d].ts),
                               PeriodTo(bars, d, Starts(INTRADAY_PERIOD));
            Batch(history, bars)
            == y + ([MakeBar(bars[PeriodFrom(bars, d, start)..e], k, INTRADAY_PERIOD)]
                    + Roll(bars[e..], start, INTRADAY_PERIOD))
  {
    var start := Starts(INTRADAY_PERIOD);
    var a, front := PeriodFrom(bars, d, start), Before(history, start(bars[0].ts) as real);
    AggregateSorted(bars);
    CutRolls(bars, d, start, INTRADAY_PERIOD);
    WholeFromPeriod(bars, d, start, INTRADAY_PERIOD);
    y := front + Roll(bars[..a], start, INTRADAY_PERIOD);
    Regroup(front, Roll(bars[..a], start, INTRADAY_PERIOD), Roll(bars[a..], start, INTRADAY_PERIOD));
  }

  /**
   * Memory is the batch, whatever it was before, when the cut period is out of sight, and is not when its bar
   * shows a loss.
   */
  lemma ReplaceShows(history: seq<Bar>, was: seq<Bar>, bars: seq<Bar>, d: nat, memory: nat)
    requires SortedBy(bars, Stamp) && d < |bars|
    ensures |Aggregate(bars[d..], INTRADAY_PERIOD)| > memory
            ==> Replace(was, bars[d..], memory) == Last(Batch(history, bars), memory)
    ensures |Aggregate(bars[d..], INTRADAY_PERIOD)| <= memory
            && !SameBar(bars, d, Starts(INTRADAY_PERIOD), INTRADAY_PERIOD)
            ==> Replace(was, bars[d..], memory) != Last(Batch(history, bars), memory)
  {
    var start := Starts(INTRADAY_PERIOD);
    var a, k, e := PeriodFrom(bars, d, start), start(bars[d].ts), PeriodTo(bars, d, start);
    KeptEnd(was, bars, d, memory);
    var y := BatchEnd(history, bars, d);
    SameEnd(Before(was, k as real), y, MakeBar(bars[d..e], k, INTRADAY_PERIOD), MakeBar(bars[a..e], k, INTRADAY_PERIOD),
            Roll(bars[e..], start, INTRADAY_PERIOD), memory);
  }

  lemma StreamedIsReplaced(history: seq<Bar>, bars: seq<Bar>, memory: nat)
    requires bars != []
    ensures Streamed(history, bars, memory).intraday
         == Replace(Streamed(history, bars[..|bars| - 1], memory).intraday, bars[Dropped(|bars|)..], memory)
  {
    StreamedParts(history, bars, memory);
    StreamedParts(history, bars[..|bars| - 1], memory);
    IntradayStep(history, bars, memory);
  }

  lemma OutOfSightAgrees(history: seq<Bar>, bars: seq<Bar>, memory: nat)
    requires SortedBy(bars, Stamp) && bars != [] && !Fits(bars, memory)
    ensures AgreesAfter(history, bars, |bars|, memory)
  {
    assert bars[..|bars|] == bars;
    StreamedIsReplaced(history, bars, memory);
    ReplaceShows(history, Streamed(history, bars[..|bars| - 1], memory).intraday, bars, Dropped(|bars|), memory);
  }

  lemma HarmDisagrees(history: seq<Bar>, bars: seq<Bar>, memory: nat)
    requires SortedBy(bars, Stamp) && bars != [] && !Harmless(bars, memory)
    ensures !AgreesAfter(history, bars, |bars|, memory)
  {
    assert bars[..|bars|] == bars;
    StreamedIsReplaced(history, bars, memory);
    ReplaceShows(history, Streamed(history, bars[..|bars| - 1], memory).intraday, bars, Dropped(|bars|), memory);
  }

  /** Where nothing is missing, a cut inside a period acts like one where the period begins. */
  lemma SameBarReplaces(was: seq<Bar>, bars: seq<Bar>, d: nat, memory: nat)
    requires SortedBy(bars, Stamp) && d < |bars| && SameBar(bars, d, Starts(INTRADAY_PERIOD), INTRADAY_PERIOD)
    ensures var a := PeriodFrom(bars, d, Starts(INTRADAY_PERIOD));
            Replace(was, bars[d..], memory) == Replace(was, bars[a..], memory)
  {
    var start := Starts(INTRADAY_PERIOD);
    KeptSorted(bars, d);
    KeptSorted(bars, PeriodFrom(bars, d, start));
    CutRolls(bars, d, start, INTRADAY_PERIOD);
  }

  /** One bar more at a harmless cut, once memory was the batch. */
  lemma HarmlessReplaces(history: seq<Bar>, was: seq<Bar>, bars: seq<Bar>, memory: nat)
    requires SortedBy(bars, Stamp) && bars != [] && Harmless(bars, memory)
    requires was == if |bars| == 1 then history else Last(Batch(history, bars[..|bars| - 1]), memory)
    ensures Replace(was, bars[Dropped(|bars|)..], memory) == Last(Batch(history, bars), memory)
  {
    var d := Dropped(|bars|);
    if CleanCut(bars, Starts(INTRADAY_PERIOD)) {
      BatchStep(history, bars, d, memory);
    } else if !Fits(bars, memory) {
      ReplaceShows(history, was, bars, d, memory);
    } else {
      SameBarReplaces(was, bars, d, memory);
      BatchStep(history, bars, PeriodFrom(bars, d, Starts(INTRADAY_PERIOD)), memory);
    }
  }

  lemma HarmlessStep(history: seq<Bar>, bars: seq<Bar>, memory: nat)
    requires SortedBy(bars, Stamp) && bars != [] && Harmless(bars, memory)
    requires |bars| > 1 ==> AgreesAfter(history, bars, |bars| - 1, memory)
    ensures AgreesAfter(history, bars, |bars|, memory)
  {
    assert bars[..|bars|] == bars;
    StreamedIsReplaced(history, bars, memory);
    HarmlessReplaces(history, Streamed(history, bars[..|bars| - 1], memory).intraday, bars, memory);
  }

  lemma HarmlessStepAt(history: seq<Bar>, bars: seq<Bar>, n: nat, memory: nat)
    requires SortedBy(bars, Stamp) && 0 < n <= |bars| && Harmless(bars[..n], memory)
    requires n > 1 ==> AgreesAfter(history, bars, n - 1, memory)
    ensures AgreesAfter(history, bars, n, memory)
  {
    var now := bars[..n];
    PrefixSorted(bars, n);
    assert now[..n] == now;
    if n > 1 { assert now[..n - 1] == bars[..n - 1]; }
    HarmlessStep(history, now, memory);
  }

  lemma {:induction false} HarmlessAgrees(history: seq<Bar>, bars: seq<Bar>, n: nat, memory: nat)
    requires SortedBy(bars, Stamp) && 0 < n <= |bars|
    requires forall i :: 0 < i <= n ==> Harmless(bars[..i], memory)
    ensures AgreesAfter(history, bars, n, memory)
  {
    if n == 1 {
    } else {
      HarmlessAgrees(history, bars, n - 1, memory);
    }
    HarmlessStepAt(history, bars, n, memory);
  }

  ghost predicate AlwaysAgrees(history: seq<Bar>, bars: seq<Bar>, memory: nat) {
    forall n :: 0 < n <= |bars| ==> AgreesAfter(history, bars, n, memory)
  }

  ghost predicate AlwaysHarmless(bars: seq<Bar>, memory: nat) {
    forall n :: 0 < n <= |bars| ==> Harmless(bars[..n], memory)
  }

  lemma HarmAt(history: seq<Bar>, bars: seq<Bar>, n: nat, memory: nat)
    requires SortedBy(bars, Stamp) && 0 < n <= |bars| && !Harmless(bars[..n], memory)
    ensures !AgreesAfter(history, bars, n, memory)
  {
    PrefixSorted(bars, n);
    HarmDisagrees(history, bars[..n], memory);
    assert bars[..n][..n] == bars[..n];
  }

  /**
   * For any number of bars and trims, any volumes and any memory: the series in memory equals the batch
   * after each and every bar exactly when each time the latest trim had cut no period, or one that is out
   * of memory, or one whose bar the cut left as it was.
   */
  lemma AgreesExactlyWhen(history: seq<Bar>, bars: seq<Bar>, memory: nat)
    requires SortedBy(bars, Stamp)
    ensures AlwaysAgrees(history, bars, memory) <==> AlwaysHarmless(bars, memory)
  {
    if AlwaysHarmless(bars, memory) {
      forall n | 0 < n <= |bars| ensures AgreesAfter(history, bars, n, memory) {
        HarmlessAgrees(history, bars, n, memory);
      }
    } else {
      var n :| 0 < n <= |bars| && !Harmless(bars[..n], memory);
      HarmAt(history, bars, n, memory);
    }
  }

  // ------------------------------------------------------------------ a stream that disagrees for a while

  ghost predicate Traded(bars: seq<Bar>) {
    forall i :: 0 <= i < |bars| ==> bars[i].volume > 0.0
  }

  lemma {:induction false} TradedVolume(bars: seq<Bar>)
    requires Traded(bars) && bars != []
    ensures Volume(bars) > 0.0
  {
    if |bars| <= 1 {
    } else {
      TradedVolume(bars[1..]);
    }
  }

  /** When every bar is traded, every cut inside a period takes something from its bar. */
  lemma TradedIsHarmed(bars: seq<Bar>, d: nat, start: real -> int, period: int)
    requires Traded(bars) && 0 < d < |bars|
    ensures SameBar(bars, d, start, period) <==> start(bars[d - 1].ts) != start(bars[d].ts)
  {
    var a, e := PeriodFrom(bars, d, start), PeriodTo(bars, d, start);
    if a < d {
      assert bars[a..e] == bars[a..d] + bars[d..e];
      VolumeConcat(bars[a..d], bars[d..e]);
      TradedVolume(bars[a..d]);
    }
  }

  /** A bar every five seconds, one share each. */
  function FiveSecondBars(n: nat): (bars: seq<Bar>)
    ensures |bars| == n && forall i :: 0 <= i < n ==> bars[i].ts == 5.0 * i as real && bars[i].volume == 1.0
  {
    seq(n, i => Bar("A", 5.0 * i as real, 10.0, 10.0, 10.0, 10.0, 1.0, 5))
  }

  lemma FiveSecondOrder(n: nat)
    ensures SortedBy(FiveSecondBars(n), Stamp) && Traded(FiveSecondBars(n))
  {
  }

  lemma FiveSecondPeriod(i: nat)
    ensures Starts(INTRADAY_PERIOD)(5.0 * i as real) == 300 * (i / 60)
  {
    assert 5.0 * i as real == (5 * i) as real;
  }

  /** Sixty bars to a period, from the first bar on. */
  ghost predicate SixtyEach(bars: seq<Bar>, start: real -> int) {
    forall i :: 0 <= i < |bars| ==> start(bars[i].ts) == 300 * (i / 60)
  }

  lemma SixtyAPeriod(n: nat)
    ensures SixtyEach(FiveSecondBars(n), Starts(INTRADAY_PERIOD))
  {
    var bars := FiveSecondBars(n);
    forall i | 0 <= i < n ensures Starts(INTRADAY_PERIOD)(bars[i].ts) == 300 * (i / 60) { FiveSecondPeriod(i); }
  }

  lemma LastSixty(n: nat) returns (q: nat)
    requires n > 0
    ensures q < n && (q + 59) / 60 + 1 == (n + 59) / 60
    ensures forall i :: q <= i < n ==> i / 60 == q / 60
    ensures q > 0 ==> (q - 1) / 60 < q / 60
  {
    q := 60 * ((n - 1) / 60);
  }

  /** The last period, and the bars before it. */
  lemma LastPeriod(bars: seq<Bar>, start: real -> int) returns (head: seq<Bar>, tail: seq<Bar>)
    requires SixtyEach(bars, start) && bars != []
    ensures bars == head + tail && tail != [] && SixtyEach(head, start) && InOne(tail, start, start(tail[0].ts))
    ensures head != [] ==> start(head[|head| - 1].ts) != start(tail[0].ts)
    ensures (|head| + 59) / 60 + 1 == (|bars| + 59) / 60
  {
    var q := LastSixty(|bars|);
    head, tail := bars[..q], bars[q..];
    var k := start(bars[q].ts);
    forall i | 0 <= i < |tail| ensures start(tail[i].ts) == k {
      assert tail[i] == bars[q + i];
      assert (q + i) / 60 == q / 60;
    }
    if q > 0 { assert head[q - 1] == bars[q - 1]; }
  }

  lemma {:induction false} PeriodCount(bars: seq<Bar>, start: real -> int, period: int)
    requires SixtyEach(bars, start)
    ensures |Roll(bars, start, period)| == (|bars| + 59) / 60
    decreases |bars|
  {
    if bars == [] {
    } else {
      var head, tail := LastPeriod(bars, start);
      PeriodCount(head, start, period);
      RollOne(tail, start, period);
      RollConcat(head, tail, start, period);
    }
  }

  lemma {:induction false} FirstTrim(n: nat)
    requires RAW_LIMIT < n <= RAW_LIMIT + RAW_LIMIT - RAW_KEEP + 1
    ensures Dropped(n) == RAW_LIMIT + 1 - RAW_KEEP
  {
    if n == RAW_LIMIT + 1 {
      assert Dropped(n - 1) == 0;
    } else {
      FirstTrim(n - 1);
    }
  }

  lemma CutAt960(bars: seq<Bar>, n: nat)
    requires bars == FiveSecondBars(n) && n > RAW_LIMIT
    ensures PeriodFrom(bars, 1001, Starts(INTRADAY_PERIOD)) == 960
    ensures Starts(INTRADAY_PERIOD)(bars[1000].ts) == Starts(INTRADAY_PERIOD)(bars[1001].ts)
  {
    SixtyAPeriod(n);
  }

  lemma CutKeepsCount(bars: seq<Bar>, d: nat, start: real -> int, period: int)
    requires d < |bars|
    ensures |Roll(bars[d..], start, period)| + |Roll(bars[..PeriodFrom(bars, d, start)], start, period)|
         == |Roll(bars, start, period)|
  {
    CutRolls(bars, d, start, period);
    WholeFromPeriod(bars, d, start, period);
  }

  lemma KeptCount(bars: seq<Bar>, start: real -> int, period: int)
    requires SixtyEach(bars, start) && |bars| > RAW_LIMIT && PeriodFrom(bars, 1001, start) == 960
    ensures |Roll(bars[1001..], start, period)| == (|bars| - 1) / 60 - 15
  {
    CutKeepsCount(bars, 1001, start, period);
    PeriodCount(bars, start, period);
    PeriodCount(bars[..960], start, period);
  }

  /** How many periods the kept bars fall into. */
  lemma KeptPeriods(bars: seq<Bar>, n: nat)
    requires bars == FiveSecondBars(n) && n > RAW_LIMIT
    ensures |Aggregate(bars[1001..], INTRADAY_PERIOD)| == (n - 1) / 60 - 15
  {
    FiveSecondOrder(n);
    KeptSorted(bars, 1001);
    CutAt960(bars, n);
    SixtyAPeriod(n);
    KeptCount(bars, Starts(INTRADAY_PERIOD), INTRADAY_PERIOD);
  }

  /**
   * A bar every five seconds: the trim at bar 5001 drops 1001 of them and cuts the period that starts at
   * 4800 in two. From there to the next trim, memory disagrees with the batch as long as it holds every
   * period since, and agrees again once the cut one is forgotten.
   */
  lemma TrimCutsPeriod(history: seq<Bar>, n: nat, memory: nat)
    requires RAW_LIMIT < n <= RAW_LIMIT + RAW_LIMIT - RAW_KEEP + 1
    ensures !CleanCut(FiveSecondBars(n), Starts(INTRADAY_PERIOD))
    ensures AgreesAfter(history, FiveSecondBars(n), n, memory) <==> memory < (n - 1) / 60 - 15
  {
    var bars := FiveSecondBars(n);
    FirstTrim(n);
    FiveSecondOrder(n);
    CutAt960(bars, n);
    KeptPeriods(bars, n);
    TradedIsHarmed(bars, 1001, Starts(INTRADAY_PERIOD), INTRADAY_PERIOD);
    if Fits(bars, memory) {
      HarmDisagrees(history, bars, memory);
    } else {
      OutOfSightAgrees(history, bars, memory);
    }
  }
}
