/** Rolling fine bars up into coarser ones, in a batch and bar by bar. */
module Bars {
  import opened Common
  import opened Sorting

  datatype Bar = Bar(
    symbol: string, ts: real, open: real, high: real, low: real, close: real, volume: real, period: int)

  /** Python's `int(ts)`: truncation toward zero. */
  function Epoch(ts: real): int {
    if ts >= 0.0 then ts.Floor else -((-ts).Floor)
  }

  /** The start of the period a moment falls in. */
  function Bucket(ts: real, period: int): int
    requires period > 0
  {
    var epoch := Epoch(ts);
    epoch - epoch % period
  }

  function Stamp(b: Bar): real { b.ts }

  function Volume(bars: seq<Bar>): real {
    if bars == [] then 0.0 else bars[0].volume + Volume(bars[1..])
  }

  function High(bars: seq<Bar>): real
    requires bars != []
  {
    if |bars| == 1 then bars[0].high else Max(bars[0].high, High(bars[1..]))
  }

  function Low(bars: seq<Bar>): real
    requires bars != []
  {
    if |bars| == 1 then bars[0].low else Min(bars[0].low, Low(bars[1..]))
  }

  /** One coarse bar from the bars of one period, in time order. */
  function MakeBar(group: seq<Bar>, start: int, period: int): Bar
    requires group != []
  {
    Bar(group[0].symbol, start as real, group[0].open, High(group), Low(group),
        group[|group| - 1].close, Volume(group), period)
  }

  /** The period starts as a function, so that what follows need not look inside the arithmetic. */
  function Starts(period: int): real -> int
    requires period > 0
  {
    (ts: real) => Bucket(ts, period)
  }

  // ------------------------------------------------------------------ rolling up runs

  /** Length of the leading run of bars that share a start. */
  function RunLength(bars: seq<Bar>, start: real -> int): (n: nat)
    requires bars != []
    ensures 1 <= n <= |bars|
  {
    if |bars| == 1 || start(bars[1].ts) != start(bars[0].ts) then 1
    else 1 + RunLength(bars[1..], start)
  }

  /** One coarse bar for every run of bars that share a start. */
  function Roll(bars: seq<Bar>, start: real -> int, period: int): seq<Bar>
    decreases |bars|
  {
    if bars == [] then []
    else
      var n := RunLength(bars, start);
      [MakeBar(bars[..n], start(bars[0].ts), period)] + Roll(bars[n..], start, period)
  }

  /** What `aggregate` computes: the runs of the bars in time order. */
  function Aggregate(bars: seq<Bar>, period: int): seq<Bar>
    requires period > 0
  {
    Roll(SortBy(bars, Stamp), Starts(period), period)
  }

  /** All in the period that starts at `k`. */
  ghost predicate InOne(bars: seq<Bar>, start: real -> int, k: int) {
    forall i :: 0 <= i < |bars| ==> start(bars[i].ts) == k
  }

  /** The first `n` bars are the leading run. */
  ghost predicate IsRun(bars: seq<Bar>, start: real -> int, n: nat) {
    && 1 <= n <= |bars| && InOne(bars[..n], start, start(bars[0].ts))
    && (n < |bars| ==> start(bars[n].ts) != start(bars[0].ts))
  }

  lemma {:induction false} RunFacts(bars: seq<Bar>, start: real -> int)
    requires bars != []
    ensures IsRun(bars, start, RunLength(bars, start))
  {
    if |bars| == 1 || start(bars[1].ts) != start(bars[0].ts) {
    } else {
      RunFacts(bars[1..], start);
      var n := RunLength(bars[1..], start);
      assert bars[..n + 1] == [bars[0]] + bars[1..][..n];
    }
  }

  lemma {:induction false} RunLengthIs(bars: seq<Bar>, start: real -> int, n: nat)
    requires IsRun(bars, start, n)
    ensures RunLength(bars, start) == n
  {
    if n == 1 {
    } else {
      assert start(bars[..n][1].ts) == start(bars[0].ts);
      assert bars[1..][..n - 1] == bars[..n][1..];
      RunLengthIs(bars[1..], start, n - 1);
    }
  }

  lemma RunOfJoint(a: seq<Bar>, b: seq<Bar>, start: real -> int)
    requires a != [] && (b != [] ==> start(a[|a| - 1].ts) != start(b[0].ts))
    ensures RunLength(a + b, start) == RunLength(a, start)
  {
    RunFacts(a, start);
    var n := RunLength(a, start);
    assert (a + b)[..n] == a[..n];
    if n == |a| && b != [] {
      assert a[..n][n - 1] == a[|a| - 1];
      assert (a + b)[n] == b[0];
    }
    RunLengthIs(a + b, start, n);
  }

  lemma RollFirstRun(a: seq<Bar>, b: seq<Bar>, start: real -> int, period: int)
    requires a != [] && (b != [] ==> start(a[|a| - 1].ts) != start(b[0].ts))
    ensures var n := RunLength(a, start);
      Roll(a + b, start, period) == [MakeBar(a[..n], start(a[0].ts), period)] + Roll(a[n..] + b, start, period)
  {
    var n := RunLength(a, start);
    RunOfJoint(a, b, start);
    assert (a + b)[..n] == a[..n] && (a + b)[n..] == a[n..] + b && (a + b)[0] == a[0];
  }

  lemma Regroup(x: seq<Bar>, y: seq<Bar>, z: seq<Bar>)
    ensures x + (y + z) == (x + y) + z
  {
  }

  /** Rolling up two stretches that do not share a period at the joint. */
  lemma {:induction false} RollConcat(a: seq<Bar>, b: seq<Bar>, start: real -> int, period: int)
    requires a != [] && b != [] ==> start(a[|a| - 1].ts) != start(b[0].ts)
    ensures Roll(a + b, start, period) == Roll(a, start, period) + Roll(b, start, period)
    decreases |a|
  {
    if a == [] {
      assert a + b == b;
    } else {
      var n := RunLength(a, start);
      RollFirstRun(a, b, start, period);
      RollConcat(a[n..], b, start, period);
      Regroup([MakeBar(a[..n], start(a[0].ts), period)], Roll(a[n..], start, period), Roll(b, start, period));
    }
  }

  /** A stretch inside one period is a single run. */
  lemma RollOne(a: seq<Bar>, start: real -> int, period: int)
    requires a != [] && InOne(a, start, start(a[0].ts))
    ensures Roll(a, start, period) == [MakeBar(a, start(a[0].ts), period)]
  {
    assert a[..|a|] == a && a[|a|..] == [];
    RunLengthIs(a, start, |a|);
  }

  // ------------------------------------------------------------------ what a roll-up keeps

  lemma {:induction false} VolumeConcat(a: seq<Bar>, b: seq<Bar>)
    ensures Volume(a + b) == Volume(a) + Volume(b)
  {
    if a == [] {
      assert a + b == b;
    } else {
      assert (a + b)[1..] == a[1..] + b;
      VolumeConcat(a[1..], b);
    }
  }

  lemma {:induction false} HighLowConcat(a: seq<Bar>, b: seq<Bar>)
    requires a != [] && b != []
    ensures High(a + b) == Max(High(a), High(b)) && Low(a + b) == Min(Low(a), Low(b))
  {
    if |a| == 1 {
      assert (a + b)[1..] == b;
    } else {
      assert (a + b)[1..] == a[1..] + b;
      HighLowConcat(a[1..], b);
    }
  }

  lemma RollSplit(bars: seq<Bar>, start: real -> int, period: int)
    requires bars != []
    ensures var n := RunLength(bars, start);
            Roll(bars, start, period)
            == [MakeBar(bars[..n], start(bars[0].ts), period)] + Roll(bars[n..], start, period)
  {
  }

  /** The same volume, range, first open, last close and symbol. */
  ghost predicate Summarizes(r: seq<Bar>, bars: seq<Bar>) {
    && r != [] && bars != []
    && Volume(r) == Volume(bars) && High(r) == High(bars) && Low(r) == Low(bars)
    && r[0].symbol == bars[0].symbol && r[0].open == bars[0].open && r[|r| - 1].close == bars[|bars| - 1].close
  }

  lemma SummaryConcat(r: seq<Bar>, a: seq<Bar>, q: seq<Bar>, b: seq<Bar>)
    requires Summarizes(r, a) && Summarizes(q, b)
    ensures Summarizes(r + q, a + b)
  {
    VolumeConcat(r, q);
    VolumeConcat(a, b);
    HighLowConcat(r, q);
    HighLowConcat(a, b);
  }

  lemma SummaryOne(group: seq<Bar>, start: int, period: int)
    requires group != []
    ensures Summarizes([MakeBar(group, start, period)], group)
  {
  }

  /** Rolling up keeps volume, range, first open, last close and symbol of the whole. */
  lemma {:induction false} RollSummary(bars: seq<Bar>, start: real -> int, period: int)
    requires bars != []
    ensures Summarizes(Roll(bars, start, period), bars)
    ensures Roll(bars, start, period)[0].ts == start(bars[0].ts) as real
    decreases |bars|
  {
    var n := RunLength(bars, start);
    var head, tail := bars[..n], bars[n..];
    var first := MakeBar(head, start(bars[0].ts), period);
    RollSplit(bars, start, period);
    assert bars == head + tail;
    SummaryOne(head, start(bars[0].ts), period);
    if tail != [] {
      RollSummary(tail, start, period);
      SummaryConcat([first], head, Roll(tail, start, period), tail);
    } else {
      assert bars == head && Roll(tail, start, period) == [];
    }
  }

  ghost predicate Monotone(start: real -> int) {
    forall x, y :: x <= y ==> start(x) <= start(y)
  }

  /** Every rolled-up bar starts where one of the bars falls, and carries the period. */
  lemma {:induction false} RollFrom(bars: seq<Bar>, start: real -> int, period: int, c: Bar) returns (b: Bar)
    requires c in Roll(bars, start, period)
    ensures c.period == period && b in bars && c.ts == start(b.ts) as real
    decreases |bars|
  {
    var n := RunLength(bars, start);
    if c == MakeBar(bars[..n], start(bars[0].ts), period) {
      b := bars[0];
    } else {
      b := RollFrom(bars[n..], start, period, c);
    }
  }

  /** The bars come period by period. */
  ghost predicate InOrder(bars: seq<Bar>, start: real -> int) {
    forall i, j :: 0 <= i < j < |bars| ==> start(bars[i].ts) <= start(bars[j].ts)
  }

  lemma SortedInOrder(bars: seq<Bar>, start: real -> int)
    requires SortedBy(bars, Stamp) && Monotone(start)
    ensures InOrder(bars, start)
  {
    forall i, j | 0 <= i < j < |bars| ensures start(bars[i].ts) <= start(bars[j].ts) {
      assert Stamp(bars[i]) <= Stamp(bars[j]);
    }
  }

  /** Each bar starts before all that follow it. */
  predicate Increasing(r: seq<Bar>) {
    r == [] || ((forall i :: 0 <= i < |r[1..]| ==> r[0].ts < r[1..][i].ts) && Increasing(r[1..]))
  }

  lemma {:induction false} IncreasingPairs(r: seq<Bar>, i: nat, j: nat)
    requires Increasing(r) && i < j < |r|
    ensures r[i].ts < r[j].ts
  {
    if i > 0 {
      IncreasingPairs(r[1..], i - 1, j - 1);
    } else {
      assert r[j] == r[1..][j - 1];
    }
  }

  lemma LaterRuns(bars: seq<Bar>, start: real -> int)
    requires bars != [] && InOrder(bars, start)
    ensures InOrder(bars[RunLength(bars, start)..], start)
    ensures forall b :: b in bars[RunLength(bars, start)..] ==> start(bars[0].ts) < start(b.ts)
  {
    RunFacts(bars, start);
    var n := RunLength(bars, start);
    forall b | b in bars[n..] ensures start(bars[0].ts) < start(b.ts) {
      var k :| n <= k < |bars| && bars[k] == b;
      assert start(bars[0].ts) <= start(bars[n].ts) && (k == n || start(bars[n].ts) <= start(bars[k].ts));
    }
  }

  lemma RollAbove(bars: seq<Bar>, start: real -> int, period: int, bound: int)
    requires forall b :: b in bars ==> bound < start(b.ts)
    ensures forall i :: 0 <= i < |Roll(bars, start, period)| ==> bound as real < Roll(bars, start, period)[i].ts
  {
    forall i | 0 <= i < |Roll(bars, start, period)| ensures bound as real < Roll(bars, start, period)[i].ts {
      var b := RollFrom(bars, start, period, Roll(bars, start, period)[i]);
    }
  }

  lemma {:induction false} RollInOrder(bars: seq<Bar>, start: real -> int, period: int)
    requires InOrder(bars, start)
    ensures Increasing(Roll(bars, start, period))
    decreases |bars|
  {
    if bars == [] {
    } else {
      var n := RunLength(bars, start);
      LaterRuns(bars, start);
      RollInOrder(bars[n..], start, period);
      RollAbove(bars[n..], start, period, start(bars[0].ts));
      RollSplit(bars, start, period);
      var r := Roll(bars, start, period);
      assert r[1..] == Roll(bars[n..], start, period);
    }
  }

  lemma RollIncreases(bars: seq<Bar>, start: real -> int, period: int)
    requires SortedBy(bars, Stamp) && Monotone(start)
    ensures forall i, j :: 0 <= i < j < |Roll(bars, start, period)| ==>
              Roll(bars, start, period)[i].ts < Roll(bars, start, period)[j].ts
  {
    SortedInOrder(bars, start);
    RollInOrder(bars, start, period);
    forall i, j | 0 <= i < j < |Roll(bars, start, period)|
      ensures Roll(bars, start, period)[i].ts < Roll(bars, start, period)[j].ts
    {
      IncreasingPairs(Roll(bars, start, period), i, j);
    }
  }

  lemma StartsMonotone(period: int)
    requires period > 0
    ensures Monotone(Starts(period))
  {
    forall x, y: real | x <= y ensures Starts(period)(x) <= Starts(period)(y) {
      FloorMonotone(Epoch(x), Epoch(y), period);
    }
  }

  predicate MultipleOf(ts: real, period: int)
    requires period > 0
  {
    ts == ts.Floor as real && ts.Floor % period == 0
  }

  lemma AggregateStarts(bars: seq<Bar>, period: int)
    requires period > 0
    ensures forall c :: c in Aggregate(bars, period) ==> c.period == period && MultipleOf(c.ts, period)
  {
    forall c | c in Aggregate(bars, period) ensures c.period == period && MultipleOf(c.ts, period) {
      var b := RollFrom(SortBy(bars, Stamp), Starts(period), period, c);
      StartIsMultiple(b.ts, period);
    }
  }

  lemma StartIsMultiple(ts: real, period: int)
    requires period > 0
    ensures MultipleOf(Starts(period)(ts) as real, period)
  {
    FloorIsMultiple(Epoch(ts), period);
  }

  /**
   * A roll-up's bars start at strictly increasing multiples of the period, and together they carry the
   * volume of the bars they came from.
   */
  lemma AggregateFacts(bars: seq<Bar>, period: int)
    requires period > 0
    ensures forall c :: c in Aggregate(bars, period) ==> c.period == period && MultipleOf(c.ts, period)
    ensures forall i, j :: 0 <= i < j < |Aggregate(bars, period)| ==>
              Aggregate(bars, period)[i].ts < Aggregate(bars, period)[j].ts
    ensures Volume(Aggregate(bars, period)) == Volume(bars)
  {
    AggregateStarts(bars, period);
    StartsMonotone(period);
    SortFacts(bars, Stamp);
    RollIncreases(SortBy(bars, Stamp), Starts(period), period);
    AggregateVolume(bars, period);
  }

  lemma {:induction false} InsertVolume(b: Bar, bars: seq<Bar>)
    ensures Volume(InsertBy(b, bars, Stamp)) == b.volume + Volume(bars)
  {
    if bars == [] || Stamp(b) <= Stamp(bars[0]) {
      assert ([b] + bars)[1..] == bars;
    } else {
      InsertVolume(b, bars[1..]);
      var rest := InsertBy(b, bars[1..], Stamp);
      assert ([bars[0]] + rest)[1..] == rest;
    }
  }

  /** Volume does not depend on order. */
  lemma {:induction false} SortedVolume(bars: seq<Bar>)
    ensures Volume(SortBy(bars, Stamp)) == Volume(bars)
  {
    if bars == [] {
    } else {
      SortedVolume(bars[1..]);
      InsertVolume(bars[0], SortBy(bars[1..], Stamp));
    }
  }

  lemma AggregateVolume(bars: seq<Bar>, period: int)
    requires period > 0
    ensures Volume(Aggregate(bars, period)) == Volume(bars)
  {
    var sorted := SortBy(bars, Stamp);
    SortedVolume(bars);
    if sorted != [] { RollSummary(sorted, Starts(period), period); }
  }

  // ------------------------------------------------------------------ arithmetic of period starts

  lemma MulOrder(p: int, x: int, y: int)
    requires p > 0 && x <= y
    ensures p * x <= p * y
  {
  }

  lemma MulStep(p: int, x: int, y: int)
    requires p > 0 && x < y
    ensures p * x + p <= p * y
  {
    MulOrder(p, x + 1, y);
    assert p * (x + 1) == p * x + p;
  }

  lemma FloorMonotone(a: int, b: int, p: int)
    requires p > 0 && a <= b
    ensures a - a % p <= b - b % p
  {
    var x, y := a / p, b / p;
    assert a == p * x + a % p && b == p * y + b % p;
    if x > y {
      MulStep(p, y, x);
      assert false;
    }
    MulOrder(p, x, y);
  }

  lemma UniqueFloor(e: int, d: int, b: int, r: int)
    requires d > 0 && e == d * b + r && 0 <= r < d
    ensures e - e % d == d * b
  {
    var c := e / d;
    assert e == d * c + e % d;
    if b < c { MulStep(d, b, c); assert false; }
    if c < b { MulStep(d, c, b); assert false; }
  }

  lemma FloorIsMultiple(e: int, p: int)
    requires p > 0
    ensures (e - e % p) % p == 0
  {
    UniqueFloor(e - e % p, p, e / p, 0);
  }

  lemma FloorTwice(e: int, p: int, k: int, q: int)
    requires p > 0 && k > 0 && q == p * k && q > 0
    ensures (e - e % p) - (e - e % p) % q == e - e % q
  {
    var a := e / p;
    var b, s := a / k, a % k;
    assert e == p * a + e % p;
    assert a == k * b + s;
    assert p * a == q * b + p * s by {
      assert p * (k * b + s) == p * (k * b) + p * s;
      assert p * (k * b) == (p * k) * b;
    }
    assert 0 <= p * s <= q - p by {
      MulOrder(p, s, k - 1);
      assert p * (k - 1) == p * k - p;
      MulOrder(p, 0, s);
    }
    UniqueFloor(p * a, q, b, p * s);
    UniqueFloor(e, q, b, p * s + e % p);
  }

  // ------------------------------------------------------------------ roll-ups compose

  /** Starting a coarse period from a fine period's start is starting it from the moment itself. */
  ghost predicate Refines(fine: real -> int, coarse: real -> int) {
    forall ts :: coarse(fine(ts) as real) == coarse(ts)
  }

  lemma DivisorRefines(p: int, q: int, k: int)
    requires p > 0 && k > 0 && q == p * k && q > 0
    ensures Refines(Starts(p), Starts(q))
  {
    forall ts: real ensures Starts(q)(Starts(p)(ts) as real) == Starts(q)(ts) {
      FloorTwice(Epoch(ts), p, k, q);
      assert Epoch(Starts(p)(ts) as real) == Starts(p)(ts);
    }
  }

  /** The fine bars of a stretch inside one coarse period all start in that period. */
  lemma RollStaysInside(bars: seq<Bar>, fine: real -> int, coarse: real -> int, p: int, start: int)
    requires Refines(fine, coarse) && InOne(bars, coarse, start)
    ensures InOne(Roll(bars, fine, p), coarse, start)
  {
    var r := Roll(bars, fine, p);
    forall i | 0 <= i < |r| ensures coarse(r[i].ts) == start {
      var b := RollFrom(bars, fine, p, r[i]);
    }
  }

  lemma {:induction false} RollRoll(bars: seq<Bar>, fine: real -> int, coarse: real -> int, p: int, q: int)
    requires Refines(fine, coarse)
    ensures Roll(Roll(bars, fine, p), coarse, q) == Roll(bars, coarse, q)
    decreases |bars|
  {
    if bars == [] {
    } else {
      RunFacts(bars, coarse);
      var n := RunLength(bars, coarse);
      var a, b := bars[..n], bars[n..];
      assert bars == a + b && a[0] == bars[0];
      RollJoint(a, b, fine, coarse, p, q);
      RollRoll(b, fine, coarse, p, q);
    }
  }

  lemma RollInside(a: seq<Bar>, fine: real -> int, coarse: real -> int, p: int, q: int)
    requires Refines(fine, coarse) && a != [] && InOne(a, coarse, coarse(a[0].ts))
    ensures Roll(Roll(a, fine, p), coarse, q) == [MakeBar(a, coarse(a[0].ts), q)]
    ensures Roll(a, fine, p) != [] && InOne(Roll(a, fine, p), coarse, coarse(a[0].ts))
  {
    var ra, start := Roll(a, fine, p), coarse(a[0].ts);
    RollSummary(a, fine, p);
    RollStaysInside(a, fine, coarse, p, start);
    RollOne(ra, coarse, q);
    assert MakeBar(ra, start, q) == MakeBar(a, start, q);
  }

  /** One coarse period rolled up through fine bars, followed by a stretch outside that period. */
  lemma RollJoint(a: seq<Bar>, b: seq<Bar>, fine: real -> int, coarse: real -> int, p: int, q: int)
    requires Refines(fine, coarse) && a != [] && InOne(a, coarse, coarse(a[0].ts))
    requires b != [] ==> coarse(b[0].ts) != coarse(a[0].ts)
    ensures Roll(Roll(a + b, fine, p), coarse, q)
         == [MakeBar(a, coarse(a[0].ts), q)] + Roll(Roll(b, fine, p), coarse, q)
  {
    var ra, rb := Roll(a, fine, p), Roll(b, fine, p);
    RollInside(a, fine, coarse, p, q);
    if b != [] {
      assert coarse(fine(a[|a| - 1].ts) as real) != coarse(fine(b[0].ts) as real);
      RollSummary(b, fine, p);
    }
    RollConcat(a, b, fine, p);
    RollConcat(ra, rb, coarse, q);
  }

  lemma ComposeSorted(sorted: seq<Bar>, fine: real -> int, coarse: real -> int, p: int, q: int)
    requires SortedBy(sorted, Stamp) && Monotone(fine) && Refines(fine, coarse)
    ensures Roll(SortBy(Roll(sorted, fine, p), Stamp), coarse, q) == Roll(sorted, coarse, q)
  {
    RollIncreases(sorted, fine, p);
    SortSorted(Roll(sorted, fine, p), Stamp);
    RollRoll(sorted, fine, coarse, p, q);
  }

  /** Roll-ups compose: going through any finer period that divides the target changes nothing. */
  lemma RollUpsCompose(bars: seq<Bar>, p: int, q: int, k: int)
    requires p > 0 && q > 0 && q == p * k
    ensures Aggregate(Aggregate(bars, p), q) == Aggregate(bars, q)
  {
    SortFacts(bars, Stamp);
    StartsMonotone(p);
    DivisorRefines(p, q, k);
    ComposeSorted(SortBy(bars, Stamp), Starts(p), Starts(q), p, q);
  }
}
