/** What one coarse bar is: the fine bars of its stretch of time, and no others. */
module BarFacts {
  import opened Common
  import opened Sorting
  import opened Bars
  import opened BarStream

  /** The period of `period` seconds from `k` on. */
  predicate InPeriod(ts: real, k: int, period: int) { k as real <= ts < (k + period) as real }

  lemma SameMultiple(k: int, j: int, period: int)
    requires period > 0 && k % period == 0 && j % period == 0 && k < j + period && j < k + period
    ensures k == j
  {
    var a, b := k / period, j / period;
    assert k == period * a && j == period * b;
    if a < b { MulStep(period, a, b); } else if b < a { MulStep(period, b, a); }
  }

  /** A moment since 1970 falls in the period that starts at the last multiple not after it. */
  lemma StartExactlyWhen(ts: real, k: int, period: int)
    requires period > 0 && ts >= 0.0
    ensures Starts(period)(ts) == k <==> k % period == 0 && InPeriod(ts, k, period)
  {
    var start := Starts(period)(ts);
    FloorIsMultiple(Epoch(ts), period);
    assert start <= Epoch(ts) < start + period;
    assert InPeriod(ts, start, period);
    if k % period == 0 && InPeriod(ts, k, period) { SameMultiple(start, k, period); }
  }

  /** Open, high, low, close and volume of these bars in time order. */
  ghost predicate Summary(c: Bar, inside: seq<Bar>) {
    && inside != [] && c.symbol == inside[0].symbol
    && c.open == inside[0].open && c.close == inside[|inside| - 1].close && c.volume == Volume(inside)
    && (forall b :: b in inside ==> c.low <= b.low && b.high <= c.high)
    && (exists b :: b in inside && b.low == c.low) && (exists b :: b in inside && b.high == c.high)
  }

  lemma {:induction false} HighIs(bars: seq<Bar>)
    requires bars != []
    ensures forall b :: b in bars ==> b.high <= High(bars)
    ensures exists b :: b in bars && b.high == High(bars)
  {
    if |bars| == 1 {
      assert bars[0] in bars;
    } else {
      HighIs(bars[1..]);
      assert bars == [bars[0]] + bars[1..];
      var b :| b in bars[1..] && b.high == High(bars[1..]);
      assert bars[0] in bars && b in bars;
    }
  }

  lemma {:induction false} LowIs(bars: seq<Bar>)
    requires bars != []
    ensures forall b :: b in bars ==> Low(bars) <= b.low
    ensures exists b :: b in bars && b.low == Low(bars)
  {
    if |bars| == 1 {
      assert bars[0] in bars;
    } else {
      LowIs(bars[1..]);
      assert bars == [bars[0]] + bars[1..];
      var b :| b in bars[1..] && b.low == Low(bars[1..]);
      assert bars[0] in bars && b in bars;
    }
  }

  lemma MadeBarSums(group: seq<Bar>, k: int, period: int)
    requires group != []
    ensures Summary(MakeBar(group, k, period), group)
  {
    HighIs(group);
    LowIs(group);
  }

  /** Each bar of a roll-up is made from the bars of one period. */
  lemma {:induction false} RolledFrom(bars: seq<Bar>, start: real -> int, period: int, c: Bar) returns (k: int)
    requires InOrder(bars, start) && c in Roll(bars, start, period)
    ensures Only(bars, start, k) != [] && c == MakeBar(Only(bars, start, k), k, period)
    decreases |bars|
  {
    var n := RunLength(bars, start);
    FirstRunIsOnly(bars, start);
    RollSplit(bars, start, period);
    k := start(bars[0].ts);
    if c != MakeBar(bars[..n], k, period) {
      TailInOrder(bars, start);
      k := RolledFrom(bars[n..], start, period, c);
      LaterRuns(bars, start);
      var i := OnlySome(bars[n..], start, k);
      OtherPeriodsLater(bars, start, k);
    }
  }

  /** The bars of a period, in time order. */
  ghost function Inside(bars: seq<Bar>, k: int, period: int): seq<Bar> {
    Filter((b: Bar) => InPeriod(b.ts, k, period), SortBy(bars, Stamp))
  }

  lemma {:induction false} SameFilter(xs: seq<Bar>, keep: Bar -> bool, keep': Bar -> bool)
    requires forall x :: x in xs ==> keep(x) == keep'(x)
    ensures Filter(keep, xs) == Filter(keep', xs)
  {
    if xs == [] {
    } else {
      SameFilter(xs[1..], keep, keep');
    }
  }

  lemma OnlyIsInside(bars: seq<Bar>, k: int, period: int)
    requires period > 0 && k % period == 0 && forall b :: b in bars ==> b.ts >= 0.0
    ensures Only(SortBy(bars, Stamp), Starts(period), k) == Inside(bars, k, period)
  {
    var sorted := SortBy(bars, Stamp);
    SortFacts(bars, Stamp);
    OnlyIsFilter(sorted, Starts(period), k);
    forall b | b in sorted ensures (Starts(period)(b.ts) == k) == InPeriod(b.ts, k, period) {
      StartExactlyWhen(b.ts, k, period);
    }
    SameFilter(sorted, (b: Bar) => Starts(period)(b.ts) == k, (b: Bar) => InPeriod(b.ts, k, period));
  }

  lemma MadeFromPeriod(bars: seq<Bar>, start: real -> int, period: int, c: Bar) returns (k: int, b: Bar)
    requires Monotone(start) && c in Roll(SortBy(bars, Stamp), start, period)
    ensures Only(SortBy(bars, Stamp), start, k) != []
    ensures c == MakeBar(Only(SortBy(bars, Stamp), start, k), k, period) && b in bars && k == start(b.ts)
  {
    var sorted := SortBy(bars, Stamp);
    SortFacts(bars, Stamp);
    SortedInOrder(sorted, start);
    k := RolledFrom(sorted, start, period, c);
    var i := OnlySome(sorted, start, k);
    b := sorted[i];
  }

  /**
   * Every coarse bar starts at a multiple of its period and sums up exactly the fine bars of the seconds from
   * there on: their first open, last close, highest high, lowest low and whole volume.
   */
  lemma CoarseBarIs(bars: seq<Bar>, period: int, c: Bar) returns (k: int)
    requires period > 0 && (forall b :: b in bars ==> b.ts >= 0.0) && c in Aggregate(bars, period)
    ensures k % period == 0 && c.ts == k as real && c.period == period && Summary(c, Inside(bars, k, period))
  {
    StartsMonotone(period);
    var b;
    k, b := MadeFromPeriod(bars, Starts(period), period, c);
    StartExactlyWhen(b.ts, k, period);
    OnlyIsInside(bars, k, period);
    MadeBarSums(Inside(bars, k, period), k, period);
  }

  /** And every fine bar is in one of them. */
  lemma EveryBarCounts(bars: seq<Bar>, period: int, b: Bar) returns (c: Bar)
    requires period > 0 && b in bars && b.ts >= 0.0
    ensures c in Aggregate(bars, period) && c.ts <= b.ts < c.ts + period as real
  {
    SortFacts(bars, Stamp);
    c := RollHas(SortBy(bars, Stamp), Starts(period), period, b);
    StartExactlyWhen(b.ts, Starts(period)(b.ts), period);
  }

  lemma {:induction false} RollHas(bars: seq<Bar>, start: real -> int, period: int, b: Bar) returns (c: Bar)
    requires b in bars
    ensures c in Roll(bars, start, period) && c.ts == start(b.ts) as real
    decreases |bars|
  {
    var n := RunLength(bars, start);
    RunFacts(bars, start);
    RollSplit(bars, start, period);
    if b in bars[..n] {
      c := MakeBar(bars[..n], start(bars[0].ts), period);
    } else {
      assert bars == bars[..n] + bars[n..];
      c := RollHas(bars[n..], start, period, b);
    }
  }
}
