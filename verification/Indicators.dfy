/** Moving averages and the relative strength index over exact reals; None stands for the warm-up's nan. */
module Indicators {
  import opened Common

  function Sum(x: seq<real>): real {
    if x == [] then 0.0 else Sum(x[..|x| - 1]) + x[|x| - 1]
  }

  function Mean(x: seq<real>): real
    requires x != []
  {
    Sum(x) / |x| as real
  }

  // ------------------------------------------------------------------ simple moving average

  /** Running totals, starting from zero. */
  function CumSum(x: seq<real>): (r: seq<real>)
    ensures |r| == |x| + 1
  {
    if x == [] then [0.0]
    else
      var before := CumSum(x[..|x| - 1]);
      before + [before[|x| - 1] + x[|x| - 1]]
  }

  function Sma(x: seq<real>, period: int): (r: seq<Option<real>>)
    ensures |r| == |x|
  {
    var csum := CumSum(x);
    seq(|x|, i requires 0 <= i < |x| =>
      if period <= 0 || i < period - 1 then None
      else Some((csum[i + 1] - csum[i + 1 - period]) / period as real))
  }

  lemma {:induction false} SumSplits(a: seq<real>, b: seq<real>)
    ensures Sum(a + b) == Sum(a) + Sum(b)
  {
    if b == [] {
      assert a + b == a;
    } else {
      assert (a + b)[..|a + b| - 1] == a + b[..|b| - 1];
      SumSplits(a, b[..|b| - 1]);
    }
  }

  lemma {:induction false} CumSumAt(x: seq<real>, k: nat)
    requires k <= |x|
    ensures CumSum(x)[k] == Sum(x[..k])
  {
    if x == [] {
    } else {
      var init := x[..|x| - 1];
      if k < |x| {
        CumSumAt(init, k);
        assert init[..k] == x[..k];
      } else {
        CumSumAt(init, |x| - 1);
        assert init[..|x| - 1] == init && x[..k] == x;
      }
    }
  }

  lemma SumOfWindow(x: seq<real>, from: nat, to: nat)
    requires from <= to <= |x|
    ensures Sum(x[..to]) - Sum(x[..from]) == Sum(x[from..to])
  {
    assert x[..to] == x[..from] + x[from..to];
    SumSplits(x[..from], x[from..to]);
  }

  lemma WindowTotal(x: seq<real>, csum: seq<real>, from: nat, to: nat)
    requires csum == CumSum(x) && from <= to <= |x|
    ensures csum[to] - csum[from] == Sum(x[from..to])
  {
    CumSumAt(x, to);
    CumSumAt(x, from);
    SumOfWindow(x, from, to);
  }

  lemma MeanIs(w: seq<real>, total: real, period: int)
    requires period > 0 && |w| == period && total == Sum(w)
    ensures Mean(w) == total / period as real
  {
  }

  /** The difference of two running totals is the mean of the window, defined once the window is full. */
  lemma SmaIsWindowMean(x: seq<real>, period: int, i: nat)
    requires i < |x|
    ensures Sma(x, period)[i] == if 1 <= period <= i + 1 then Some(Mean(x[i + 1 - period..i + 1])) else None
  {
    if 1 <= period <= i + 1 {
      var csum := CumSum(x);
      WindowTotal(x, csum, i + 1 - period, i + 1);
      MeanIs(x[i + 1 - period..i + 1], csum[i + 1] - csum[i + 1 - period], period);
    }
  }

  // ------------------------------------------------------------------ quotients

  lemma MulZero(a: real, b: real)
    requires b != 0.0 && a * b == 0.0
    ensures a == 0.0
  {
  }

  /** A quotient is whatever multiplies back. */
  lemma QuotientIs(x: real, d: real, q: real)
    requires d != 0.0 && q * d == x
    ensures x / d == q
  {
    var r := x / d;
    assert r * d == x;
    assert (r - q) * d == 0.0;
    MulZero(r - q, d);
  }

  lemma WholeIs(g: real, l: real)
    requires g >= 0.0 && l > 0.0
    ensures 1.0 + g / l == (g + l) / l
  {
    var r := g / l;
    assert r * l == g;
    QuotientIs(g + l, l, 1.0 + r);
  }

  lemma Flipped(s: real, l: real)
    requires s > 0.0 && l > 0.0
    ensures s / l != 0.0 && 100.0 / (s / l) == 100.0 * (l / s)
  {
    var w, v := s / l, l / s;
    assert w * l == s && v * s == l;
    assert w * v * s == w * l;
    assert (w * v - 1.0) * s == 0.0;
    MulZero(w * v - 1.0, s);
    QuotientIs(100.0, w, 100.0 * v);
  }

  lemma Complement(g: real, l: real)
    requires g + l > 0.0
    ensures 1.0 - l / (g + l) == g / (g + l)
  {
    var v := l / (g + l);
    assert v * (g + l) == l;
    QuotientIs(g, g + l, 1.0 - v);
  }

  lemma LessTimes(n: real, a: real, b: real)
    requires n > 0.0 && a < b
    ensures n * a < n * b
  {
    assert n * (b - a) > 0.0;
  }

  lemma Divided(total: real, n: real, lo: real, hi: real)
    requires n > 0.0 && n * lo <= total <= n * hi
    ensures lo <= total / n <= hi
  {
    var q := total / n;
    assert q * n == total;
    if q < lo {
      LessTimes(n, q, lo);
      assert false;
    }
    if q > hi {
      LessTimes(n, hi, q);
      assert false;
    }
  }

  lemma TimesBetween(w: real, v: real, lo: real, hi: real)
    requires w >= 0.0 && lo <= v <= hi
    ensures w * lo <= w * v <= w * hi
  {
    assert w * (v - lo) >= 0.0 && w * (hi - v) >= 0.0;
  }

  // ------------------------------------------------------------------ exponential averages

  /** Wilder's smoothing gives the new value the weight 1/period. */
  function WilderStep(period: int): (real, real) -> real
    requires period > 0
  {
    (prev: real, x: real) => (prev * (period - 1) as real + x) / period as real
  }

  /** The usual exponential average gives it 2/(period + 1). */
  function EmaStep(period: int): (real, real) -> real
    requires period > 0
  {
    var alpha := 2.0 / (period as real + 1.0);
    (prev: real, x: real) => alpha * x + (1.0 - alpha) * prev
  }

  /** The seed at index `period` - 1, then one step for each value. */
  function SmoothedAt(x: seq<real>, period: int, seed: real, step: (real, real) -> real, i: nat): real
    requires 0 < period <= i + 1 <= |x|
  {
    if i == period - 1 then seed else step(SmoothedAt(x, period, seed, step, i - 1), x[i])
  }

  function Smoothed(x: seq<real>, period: int, seed: real, step: (real, real) -> real): (r: seq<Option<real>>)
    requires period > 0
    ensures |r| == |x|
    ensures forall i :: 0 <= i < |x| ==> (r[i].Some? <==> period <= i + 1)
  {
    seq(|x|, i requires 0 <= i < |x| => if period <= i + 1 then Some(SmoothedAt(x, period, seed, step, i)) else None)
  }

  function Undefined(n: nat): (r: seq<Option<real>>)
    ensures |r| == n && forall i :: 0 <= i < n ==> r[i] == None
  {
    seq(n, _ => None)
  }

  /** Both averages are seeded with the mean of the first `period` values. */
  function Wilder(x: seq<real>, period: int): (r: seq<Option<real>>)
    ensures |r| == |x|
    ensures forall i :: 0 <= i < |x| ==> (r[i].Some? <==> 1 <= period <= i + 1)
  {
    if period <= 0 || |x| < period then Undefined(|x|) else Smoothed(x, period, Mean(x[..period]), WilderStep(period))
  }

  function Ema(x: seq<real>, period: int): (r: seq<Option<real>>)
    ensures |r| == |x|
    ensures forall i :: 0 <= i < |x| ==> (r[i].Some? <==> 1 <= period <= i + 1)
  {
    if period <= 0 || |x| < period then Undefined(|x|) else Smoothed(x, period, Mean(x[..period]), EmaStep(period))
  }

  /** Nothing before the seed, then the seed, then one step after another. */
  ghost predicate Recurs(r: seq<Option<real>>, x: seq<real>, period: int, seed: real, step: (real, real) -> real) {
    && 0 < period <= |x| == |r| && r[period - 1] == Some(seed)
    && (forall k :: 0 <= k < period - 1 ==> r[k] == None)
    && (forall j, k :: period - 1 <= j < k < |x| && k == j + 1 ==>
          r[j].Some? && r[k] == Some(step(r[j].value, x[k])))
  }

  lemma SmoothedRecurs(x: seq<real>, period: int, seed: real, step: (real, real) -> real)
    requires 0 < period <= |x|
    ensures Recurs(Smoothed(x, period, seed, step), x, period, seed, step)
  {
    var r := Smoothed(x, period, seed, step);
    forall j, k | period - 1 <= j < k < |x| && k == j + 1 ensures r[k] == Some(step(r[j].value, x[k])) {
      assert SmoothedAt(x, period, seed, step, k) == step(SmoothedAt(x, period, seed, step, j), x[k]);
    }
  }

  /** The loop of both averages: fill the output from the seed on. */
  method Fill(x: seq<real>, period: int, seed: real, step: (real, real) -> real, ghost r: seq<Option<real>>)
    returns (out: array<Option<real>>)
    requires Recurs(r, x, period, seed, step)
    ensures out[..] == r
  {
    out := new Option<real>[|x|](_ => None);
    out[period - 1] := Some(seed);
    for i := period to |x|
      invariant forall k :: 0 <= k < i ==> out[k] == r[k]
    {
      ghost var next := r[i];
      assert r[i - 1].Some? && next == Some(step(r[i - 1].value, x[i]));
      out[i] := Some(step(out[i - 1].value, x[i]));
    }
  }

  method WilderSmooth(x: seq<real>, period: int) returns (out: array<Option<real>>)
    ensures out[..] == Wilder(x, period)
  {
    if period <= 0 || |x| < period {
      out := new Option<real>[|x|](_ => None);
    } else {
      var seed := Mean(x[..period]);
      SmoothedRecurs(x, period, seed, WilderStep(period));
      out := Fill(x, period, seed, WilderStep(period), Wilder(x, period));
    }
  }

  method ExponentialAverage(x: seq<real>, period: int) returns (out: array<Option<real>>)
    ensures out[..] == Ema(x, period)
  {
    if period <= 0 || |x| < period {
      out := new Option<real>[|x|](_ => None);
    } else {
      var seed := Mean(x[..period]);
      SmoothedRecurs(x, period, seed, EmaStep(period));
      out := Fill(x, period, seed, EmaStep(period), Ema(x, period));
    }
  }

  /** One step of Wilder's smoothing with period n is one step of the exponential one with period 2n - 1. */
  lemma WilderStepIsEmaStep(period: int, prev: real, x: real)
    requires period > 0
    ensures WilderStep(period)(prev, x) == EmaStep(2 * period - 1)(prev, x)
  {
    var n := period as real;
    var share := 1.0 / n;
    assert share * n == 1.0;
    QuotientIs(2.0, (2 * period - 1) as real + 1.0, share);
    QuotientIs(prev * (n - 1.0) + x, n, share * x + (1.0 - share) * prev) by { BlendTimes(share, n, prev, x); }
  }

  lemma BlendTimes(share: real, n: real, prev: real, x: real)
    requires share * n == 1.0
    ensures (share * x + (1.0 - share) * prev) * n == prev * (n - 1.0) + x
  {
    assert (share * x + (1.0 - share) * prev) * n == (share * n) * x + (n - share * n) * prev;
  }

  function Power(q: real, n: nat): real {
    if n == 0 then 1.0 else q * Power(q, n - 1)
  }

  /** What is left of a difference after one step that takes the same new value. */
  function Fading(period: int): real
    requires period > 0
  {
    1.0 - 1.0 / period as real
  }

  lemma StepGap(period: int, a: real, b: real, x: real)
    requires period > 0
    ensures WilderStep(period)(a, x) - EmaStep(2 * period - 1)(b, x) == Fading(period) * (a - b)
  {
    WilderStepIsEmaStep(period, a, x);
    var n := period as real;
    var share := 1.0 / n;
    assert share * n == 1.0;
    QuotientIs(2.0, (2 * period - 1) as real + 1.0, share);
    BlendGap(share, x, a, b);
  }

  lemma BlendGap(share: real, x: real, a: real, b: real)
    ensures (share * x + (1.0 - share) * a) - (share * x + (1.0 - share) * b) == (1.0 - share) * (a - b)
  {
  }

  /** One index more of a smoothed series. */
  lemma SmoothedNext(x: seq<real>, period: int, seed: real, step: (real, real) -> real, i: nat)
    requires 0 < period <= i < |x|
    ensures var r := Smoothed(x, period, seed, step); r[i].value == step(r[i - 1].value, x[i])
  {
  }

  lemma WilderNext(x: seq<real>, period: int, i: nat)
    requires 0 < period <= i < |x|
    ensures Wilder(x, period)[i].value == WilderStep(period)(Wilder(x, period)[i - 1].value, x[i])
  {
    SmoothedNext(x, period, Mean(x[..period]), WilderStep(period), i);
  }

  lemma EmaNext(x: seq<real>, period: int, i: nat)
    requires 0 < period <= i < |x|
    ensures Ema(x, period)[i].value == EmaStep(period)(Ema(x, period)[i - 1].value, x[i])
  {
    SmoothedNext(x, period, Mean(x[..period]), EmaStep(period), i);
  }

  function Gap(w: Option<real>, e: Option<real>): real {
    if w.Some? && e.Some? then w.value - e.value else 0.0
  }

  lemma StepShrinks(period: int, w: Option<real>, e: Option<real>, x: real, w': Option<real>, e': Option<real>, q: real)
    requires period > 0 && q == Fading(period) && w.Some? && e.Some?
    requires w' == Some(WilderStep(period)(w.value, x)) && e' == Some(EmaStep(2 * period - 1)(e.value, x))
    ensures Gap(w', e') == q * Gap(w, e)
  {
    StepGap(period, w.value, e.value, x);
  }

  lemma GapAt(x: seq<real>, period: int, k: nat, q: real)
    requires 0 < period && 2 * period - 1 <= k < |x| && q == Fading(period)
    ensures Gap(Wilder(x, period)[k], Ema(x, 2 * period - 1)[k])
         == Times(q, Gap(Wilder(x, period)[k - 1], Ema(x, 2 * period - 1)[k - 1]))
  {
    var w, e := Wilder(x, period), Ema(x, 2 * period - 1);
    WilderNext(x, period, k);
    EmaNext(x, 2 * period - 1, k);
    StepShrinks(period, w[k - 1], e[k - 1], x[k], w[k], e[k], q);
  }

  /** `g` shrunk by `q` `n` times. */
  function Shrunk(q: real, n: nat, g: real): real {
    if n == 0 then g else Times(q, Shrunk(q, n - 1, g))
  }

  function Times(q: real, x: real): real { q * x }

  lemma {:induction false} ShrunkIsPower(q: real, n: nat, g: real)
    ensures Shrunk(q, n, g) == Power(q, n) * g
  {
    if n == 0 {
    } else {
      ShrunkIsPower(q, n - 1, g);
      PowerTimes(q, n - 1, g, Shrunk(q, n - 1, g), Shrunk(q, n, g));
    }
  }

  lemma PowerTimes(q: real, n: nat, g: real, before: real, after: real)
    requires before == Power(q, n) * g && after == q * before
    ensures after == Power(q, n + 1) * g
  {
  }

  lemma {:induction false} GapShrinks(x: seq<real>, period: int, i: nat, q: real)
    requires 0 < period && 2 * period - 1 <= i + 1 <= |x| && q == Fading(period)
    ensures var lo := 2 * period - 2;
            Gap(Wilder(x, period)[i], Ema(x, 2 * period - 1)[i])
            == Shrunk(q, i - lo, Gap(Wilder(x, period)[lo], Ema(x, 2 * period - 1)[lo]))
  {
    if i == 2 * period - 2 {
    } else {
      GapShrinks(x, period, i - 1, q);
      GapAt(x, period, i, q);
    }
  }

  /**
   * Wilder's smoothing with period n is a slower exponential average, the one with period 2n - 1: what is
   * between them when the slower one starts, because their seeds differ, fades by the factor 1 - 1/n with
   * every value after.
   */
  lemma WilderIsSlowEma(x: seq<real>, period: int, i: nat)
    requires 0 < period && 2 * period - 1 <= i + 1 <= |x|
    ensures var w, e, lo := Wilder(x, period), Ema(x, 2 * period - 1), 2 * period - 2;
            Gap(w[i], e[i]) == Power(Fading(period), i - lo) * Gap(w[lo], e[lo])
  {
    var w, e, lo := Wilder(x, period), Ema(x, 2 * period - 1), 2 * period - 2;
    GapShrinks(x, period, i, Fading(period));
    ShrunkIsPower(Fading(period), i - lo, Gap(w[lo], e[lo]));
  }

  /** With the same period the two take different steps, unless the period is one or nothing changes. */
  lemma StepsDiffer(period: int, prev: real, x: real)
    requires period > 0
    ensures WilderStep(period)(prev, x) == EmaStep(period)(prev, x) <==> period == 1 || x == prev
  {
    var n := period as real;
    var share, alpha := 1.0 / n, 2.0 / (n + 1.0);
    assert share * n == 1.0 && alpha * (n + 1.0) == 2.0;
    QuotientIs(prev * (n - 1.0) + x, n, share * x + (1.0 - share) * prev) by { BlendTimes(share, n, prev, x); }
    SharesDiffer(share, alpha, n);
    BlendsDiffer(share, alpha, prev, x);
  }

  lemma SharesDiffer(share: real, alpha: real, n: real)
    requires n >= 1.0 && share * n == 1.0 && alpha * (n + 1.0) == 2.0
    ensures share == alpha <==> n == 1.0
  {
    if share == alpha {
      assert alpha * (n + 1.0) == share * n + share;
      assert share == 1.0;
    }
  }

  lemma BlendsDiffer(share: real, alpha: real, prev: real, x: real)
    ensures share * x + (1.0 - share) * prev == alpha * x + (1.0 - alpha) * prev <==> share == alpha || x == prev
  {
    assert (share * x + (1.0 - share) * prev) - (alpha * x + (1.0 - alpha) * prev) == (share - alpha) * (x - prev);
    if share != alpha && x != prev { ProductNotZero(share - alpha, x - prev); }
  }

  lemma ProductNotZero(a: real, b: real)
    requires a != 0.0 && b != 0.0
    ensures a * b != 0.0
  {
    if a * b == 0.0 { MulZero(a, b); }
  }

  lemma {:induction false} SteadyKeepsSeed(x: seq<real>, period: int, seed: real, i: nat)
    requires 0 < period <= i + 1 <= |x| && forall k :: period <= k <= i ==> x[k] == seed
    ensures SmoothedAt(x, period, seed, WilderStep(period), i) == seed
    ensures SmoothedAt(x, period, seed, EmaStep(period), i) == seed
  {
    if i == period - 1 {
    } else {
      SteadyKeepsSeed(x, period, seed, i - 1);
      StepsDiffer(period, seed, seed);
      EmaOfSame(period, seed);
    }
  }

  lemma EmaOfSame(period: int, v: real)
    requires period > 0
    ensures EmaStep(period)(v, v) == v
  {
  }

  lemma {:induction false} PeriodOneIsSame(x: seq<real>, seed: real, i: nat)
    requires i < |x|
    ensures SmoothedAt(x, 1, seed, WilderStep(1), i) == SmoothedAt(x, 1, seed, EmaStep(1), i)
  {
    if i == 0 {
    } else {
      PeriodOneIsSame(x, seed, i - 1);
      StepsDiffer(1, SmoothedAt(x, 1, seed, WilderStep(1), i - 1), x[i]);
    }
  }

  /** If the averages agree up to `i`, nothing has moved since the seed. */
  lemma {:induction false} AgreedMeansSteady(x: seq<real>, period: int, seed: real, i: nat)
    requires 1 < period <= i + 1 <= |x|
    requires forall k :: period - 1 <= k <= i ==>
               SmoothedAt(x, period, seed, WilderStep(period), k) == SmoothedAt(x, period, seed, EmaStep(period), k)
    ensures forall k :: period <= k <= i ==> x[k] == seed
  {
    if i == period - 1 {
    } else {
      AgreedMeansSteady(x, period, seed, i - 1);
      SteadyKeepsSeed(x, period, seed, i - 1);
      assert SmoothedAt(x, period, seed, WilderStep(period), i) == WilderStep(period)(seed, x[i]);
      assert SmoothedAt(x, period, seed, EmaStep(period), i) == EmaStep(period)(seed, x[i]);
      StepsDiffer(period, seed, x[i]);
    }
  }

  /** So it is not the exponential average of its own period, unless that is one or no value leaves the first mean. */
  lemma WilderIsEmaExactlyWhen(x: seq<real>, period: int)
    requires 0 < period <= |x|
    ensures Wilder(x, period) == Ema(x, period)
       <==> period == 1 || forall k :: period <= k < |x| ==> x[k] == Mean(x[..period])
  {
    var seed := Mean(x[..period]);
    if period == 1 {
      forall i | 0 <= i < |x| ensures Wilder(x, 1)[i] == Ema(x, 1)[i] { PeriodOneIsSame(x, seed, i); }
    } else if Wilder(x, period) == Ema(x, period) {
      forall k | period - 1 <= k < |x|
        ensures SmoothedAt(x, period, seed, WilderStep(period), k) == SmoothedAt(x, period, seed, EmaStep(period), k)
      {
        assert Wilder(x, period)[k] == Ema(x, period)[k];
      }
      AgreedMeansSteady(x, period, seed, |x| - 1);
    } else if forall k :: period <= k < |x| ==> x[k] == seed {
      forall i | 0 <= i < |x| ensures Wilder(x, period)[i] == Ema(x, period)[i] {
        if period <= i + 1 { SteadyKeepsSeed(x, period, seed, i); }
      }
    }
  }

  ghost predicate Between(x: seq<real>, lo: real, hi: real) {
    forall k :: 0 <= k < |x| ==> lo <= x[k] <= hi
  }

  lemma {:induction false} SumBetween(x: seq<real>, lo: real, hi: real)
    requires Between(x, lo, hi)
    ensures |x| as real * lo <= Sum(x) <= |x| as real * hi
  {
    if x == [] {
    } else {
      SumBetween(x[..|x| - 1], lo, hi);
      OneMore(|x| - 1, lo);
      OneMore(|x| - 1, hi);
    }
  }

  lemma OneMore(n: nat, v: real)
    ensures (n + 1) as real * v == n as real * v + v
  {
  }

  lemma MeanBetween(x: seq<real>, lo: real, hi: real)
    requires x != [] && Between(x, lo, hi)
    ensures lo <= Mean(x) <= hi
  {
    SumBetween(x, lo, hi);
    Divided(Sum(x), |x| as real, lo, hi);
  }

  /** A step that never leaves the range its two arguments lie in. */
  ghost predicate Blends(step: (real, real) -> real) {
    forall prev, x, lo, hi :: lo <= prev <= hi && lo <= x <= hi ==> InRange(step(prev, x), lo, hi)
  }

  predicate InRange(v: real, lo: real, hi: real) { lo <= v <= hi }

  lemma BlendAbove(w: real, a: real, b: real, lo: real)
    requires 0.0 <= w <= 1.0 && lo <= a && lo <= b
    ensures lo <= w * a + (1.0 - w) * b
  {
    assert w * (a - lo) >= 0.0;
    assert (1.0 - w) * (b - lo) >= 0.0;
  }

  lemma BlendBelow(w: real, a: real, b: real, hi: real)
    requires 0.0 <= w <= 1.0 && a <= hi && b <= hi
    ensures w * a + (1.0 - w) * b <= hi
  {
    assert w * (hi - a) >= 0.0;
    assert (1.0 - w) * (hi - b) >= 0.0;
  }

  lemma WilderBetween(n: real, prev: real, x: real, lo: real, hi: real)
    requires n >= 1.0 && lo <= prev <= hi && lo <= x <= hi
    ensures lo <= (prev * (n - 1.0) + x) / n <= hi
  {
    TimesBetween(n - 1.0, prev, lo, hi);
    assert (n - 1.0) * lo + lo == n * lo && (n - 1.0) * hi + hi == n * hi;
    Divided(prev * (n - 1.0) + x, n, lo, hi);
  }

  lemma WilderInRange(period: int, prev: real, x: real, lo: real, hi: real)
    requires period > 0 && lo <= prev <= hi && lo <= x <= hi
    ensures InRange(WilderStep(period)(prev, x), lo, hi)
  {
    assert (period - 1) as real == period as real - 1.0;
    WilderBetween(period as real, prev, x, lo, hi);
  }

  lemma WilderBlends(period: int)
    requires period > 0
    ensures Blends(WilderStep(period))
  {
    forall prev, x, lo, hi | lo <= prev <= hi && lo <= x <= hi ensures InRange(WilderStep(period)(prev, x), lo, hi) {
      WilderInRange(period, prev, x, lo, hi);
    }
  }

  lemma EmaInRange(period: int, prev: real, x: real, lo: real, hi: real)
    requires period > 0 && lo <= prev <= hi && lo <= x <= hi
    ensures InRange(EmaStep(period)(prev, x), lo, hi)
  {
    Divided(2.0, period as real + 1.0, 0.0, 1.0);
    BlendAbove(2.0 / (period as real + 1.0), x, prev, lo);
    BlendBelow(2.0 / (period as real + 1.0), x, prev, hi);
  }

  lemma EmaBlends(period: int)
    requires period > 0
    ensures Blends(EmaStep(period))
  {
    forall prev, x, lo, hi | lo <= prev <= hi && lo <= x <= hi ensures InRange(EmaStep(period)(prev, x), lo, hi) {
      EmaInRange(period, prev, x, lo, hi);
    }
  }

  lemma {:induction false} StaysWithin(
      x: seq<real>, period: int, seed: real, step: (real, real) -> real, i: nat, lo: real, hi: real)
    requires 0 < period <= i + 1 <= |x| && Between(x[..i + 1], lo, hi) && lo <= seed <= hi && Blends(step)
    ensures lo <= SmoothedAt(x, period, seed, step, i) <= hi
  {
    assert x[i] == x[..i + 1][i];
    if i == period - 1 {
    } else {
      assert forall k :: 0 <= k < i ==> x[..i][k] == x[..i + 1][k];
      StaysWithin(x, period, seed, step, i - 1, lo, hi);
      assert InRange(step(SmoothedAt(x, period, seed, step, i - 1), x[i]), lo, hi);
    }
  }

  lemma SeedBetween(x: seq<real>, period: int, i: nat, lo: real, hi: real)
    requires 1 <= period <= i + 1 <= |x| && Between(x[..i + 1], lo, hi)
    ensures lo <= Mean(x[..period]) <= hi
  {
    assert forall k :: 0 <= k < period ==> x[..period][k] == x[..i + 1][k];
    MeanBetween(x[..period], lo, hi);
  }

  /**
   * Wilder's average is defined exactly from the seed on, and stays within any bounds that hold of every
   * value seen so far: the least and the greatest of them, for instance.
   */
  lemma WilderStaysWithin(x: seq<real>, period: int, i: nat, lo: real, hi: real)
    requires i < |x| && Between(x[..i + 1], lo, hi)
    ensures Wilder(x, period)[i].Some? <==> 1 <= period <= i + 1
    ensures Wilder(x, period)[i].Some? ==> lo <= Wilder(x, period)[i].value <= hi
  {
    if 1 <= period <= i + 1 {
      WilderBlends(period);
      SeedBetween(x, period, i, lo, hi);
      StaysWithin(x, period, Mean(x[..period]), WilderStep(period), i, lo, hi);
    }
  }

  /** So is the exponential average. */
  lemma EmaStaysWithin(x: seq<real>, period: int, i: nat, lo: real, hi: real)
    requires i < |x| && Between(x[..i + 1], lo, hi)
    ensures Ema(x, period)[i].Some? <==> 1 <= period <= i + 1
    ensures Ema(x, period)[i].Some? ==> lo <= Ema(x, period)[i].value <= hi
  {
    if 1 <= period <= i + 1 {
      EmaBlends(period);
      SeedBetween(x, period, i, lo, hi);
      StaysWithin(x, period, Mean(x[..period]), EmaStep(period), i, lo, hi);
    }
  }

  // ------------------------------------------------------------------ relative strength

  function Diff(c: seq<real>): (d: seq<real>)
    ensures |d| == if c == [] then 0 else |c| - 1
    ensures forall k :: 0 <= k < |d| ==> d[k] == c[k + 1] - c[k]
  {
    if c == [] then [] else seq(|c| - 1, k requires 0 <= k < |c| - 1 => c[k + 1] - c[k])
  }

  function Gains(d: seq<real>): (g: seq<real>)
    ensures |g| == |d| && forall k :: 0 <= k < |d| ==> g[k] == if d[k] > 0.0 then d[k] else 0.0
  {
    seq(|d|, k requires 0 <= k < |d| => if d[k] > 0.0 then d[k] else 0.0)
  }

  function Losses(d: seq<real>): (l: seq<real>)
    ensures |l| == |d| && forall k :: 0 <= k < |d| ==> l[k] == if d[k] < 0.0 then -d[k] else 0.0
  {
    seq(|d|, k requires 0 <= k < |d| => if d[k] < 0.0 then -d[k] else 0.0)
  }

  /** The index of an average gain and an average loss, with both cases of a zero average loss. */
  function Strength(gain: real, loss: real): Option<real> {
    if loss == 0.0 && gain > 0.0 then Some(100.0)
    else if loss == 0.0 && gain == 0.0 then Some(50.0)
    else if loss == 0.0 || 1.0 + gain / loss == 0.0 then None
    else Some(100.0 - 100.0 / (1.0 + gain / loss))
  }

  function StrengthOf(gain: Option<real>, loss: Option<real>): Option<real> {
    if gain.None? || loss.None? then None else Strength(gain.value, loss.value)
  }

  /** One place later than the averages, which are of the changes. */
  function Indexed(gains: seq<Option<real>>, losses: seq<Option<real>>, n: nat): (r: seq<Option<real>>)
    requires |gains| == |losses| && (n > 0 ==> n == |gains| + 1)
    ensures |r| == n
  {
    seq(n, i requires 0 <= i < n => if i == 0 then None else StrengthOf(gains[i - 1], losses[i - 1]))
  }

  function Rsi(c: seq<real>, period: int): (r: seq<Option<real>>)
    ensures |r| == |c|
  {
    if |c| < period + 1 then Undefined(|c|)
    else Indexed(Wilder(Gains(Diff(c)), period), Wilder(Losses(Diff(c)), period), |c|)
  }

  /** The gains' share of all movement, in percent; an even half when nothing moved. */
  function Share(gain: real, loss: real): real {
    if gain + loss == 0.0 then 50.0 else 100.0 * (gain / (gain + loss))
  }

  lemma StrengthIsShare(gain: real, loss: real)
    requires gain >= 0.0 && loss >= 0.0
    ensures Strength(gain, loss) == Some(Share(gain, loss))
  {
    if loss > 0.0 {
      WholeIs(gain, loss);
      Flipped(gain + loss, loss);
      Complement(gain, loss);
    } else if gain > 0.0 {
      QuotientIs(gain, gain, 1.0);
    }
  }

  lemma ShareFacts(gain: real, loss: real)
    requires gain >= 0.0 && loss >= 0.0
    ensures 0.0 <= Share(gain, loss) <= 100.0
    ensures Share(gain, loss) + Share(loss, gain) == 100.0
  {
    if gain + loss > 0.0 {
      Divided(gain, gain + loss, 0.0, 1.0);
      Complement(gain, loss);
    }
  }

  /** An average of gains or of losses is defined once there are enough of them, and never negative. */
  lemma AverageNotNegative(x: seq<real>, period: int, i: nat)
    requires 1 <= period <= i + 1 <= |x| && forall k :: 0 <= k < |x| ==> x[k] >= 0.0
    ensures Wilder(x, period)[i].Some? && Wilder(x, period)[i].value >= 0.0
  {
    WilderStaysWithin(x, period, i, 0.0, Highest(x[..i + 1]));
  }

  function Highest(x: seq<real>): (m: real)
    ensures m >= 0.0 && forall k :: 0 <= k < |x| ==> x[k] <= m
  {
    if x == [] then 0.0 else Max(Highest(x[..|x| - 1]), x[|x| - 1])
  }

  lemma IndexedAt(gains: seq<Option<real>>, losses: seq<Option<real>>, i: nat)
    requires |gains| == |losses| && 1 <= i <= |gains|
    ensures Indexed(gains, losses, |gains| + 1)[i] == StrengthOf(gains[i - 1], losses[i - 1])
  {
  }

  lemma RsiAt(c: seq<real>, period: int, i: nat)
    requires 1 <= i < |c| && period < |c|
    ensures Rsi(c, period)[i] == StrengthOf(Wilder(Gains(Diff(c)), period)[i - 1],
                                            Wilder(Losses(Diff(c)), period)[i - 1])
  {
    IndexedAt(Wilder(Gains(Diff(c)), period), Wilder(Losses(Diff(c)), period), i);
  }

  /** The average gain and loss at `i`, which are what the index is computed from. */
  ghost predicate Averages(c: seq<real>, period: int, i: nat, gain: real, loss: real)
    requires 1 <= i < |c|
  {
    && Wilder(Gains(Diff(c)), period)[i - 1] == Some(gain) && gain >= 0.0
    && Wilder(Losses(Diff(c)), period)[i - 1] == Some(loss) && loss >= 0.0
  }

  lemma AveragesExist(c: seq<real>, period: int, i: nat) returns (gain: real, loss: real)
    requires 1 <= period <= i < |c|
    ensures Averages(c, period, i, gain, loss)
  {
    AverageNotNegative(Gains(Diff(c)), period, i - 1);
    AverageNotNegative(Losses(Diff(c)), period, i - 1);
    gain, loss := Wilder(Gains(Diff(c)), period)[i - 1].value, Wilder(Losses(Diff(c)), period)[i - 1].value;
  }

  lemma RsiFrom(c: seq<real>, period: int, i: nat, gain: real, loss: real)
    requires 1 <= period <= i < |c| && Averages(c, period, i, gain, loss)
    ensures Rsi(c, period)[i] == StrengthOf(Some(gain), Some(loss))
  {
    RsiAt(c, period, i);
  }

  lemma ShareFrom(r: Option<real>, gain: real, loss: real)
    requires gain >= 0.0 && loss >= 0.0 && r == StrengthOf(Some(gain), Some(loss))
    ensures r == Some(Share(gain, loss))
  {
    StrengthIsShare(gain, loss);
  }

  /** From index `period` on, the index is the average gains' share of the average movement. */
  lemma RsiIsShare(c: seq<real>, period: int, i: nat) returns (gain: real, loss: real)
    requires 1 <= period <= i < |c|
    ensures Averages(c, period, i, gain, loss)
    ensures Rsi(c, period)[i] == Some(Share(gain, loss))
  {
    gain, loss := AveragesExist(c, period, i);
    RsiFrom(c, period, i, gain, loss);
    ShareFrom(Rsi(c, period)[i], gain, loss);
  }

  lemma RsiWarmsUp(c: seq<real>, period: int, i: nat)
    requires i < |c| && !(1 <= period <= i)
    ensures Rsi(c, period)[i] == None
  {
    if i > 0 && period < |c| { RsiAt(c, period, i); }
  }

  /** The index is defined exactly from `period` on, and never leaves [0, 100]. */
  lemma RsiInRange(c: seq<real>, period: int, i: nat)
    requires i < |c|
    ensures Rsi(c, period)[i].Some? <==> 1 <= period <= i
    ensures Rsi(c, period)[i].Some? ==> 0.0 <= Rsi(c, period)[i].value <= 100.0
  {
    if 1 <= period <= i {
      var gain, loss := RsiIsShare(c, period, i);
      ShareFacts(gain, loss);
    } else {
      RsiWarmsUp(c, period, i);
    }
  }

  /** A series that only rises, by at least some step each time, has index 100 wherever it is defined. */
  lemma RsiOfRise(c: seq<real>, period: int, i: nat, least: real)
    requires 1 <= period <= i < |c| && least > 0.0
    requires forall k :: 0 <= k < |c| - 1 ==> Diff(c)[k] >= least
    ensures Rsi(c, period)[i] == Some(100.0)
  {
    var gain, loss := RsiIsShare(c, period, i);
    RiseAverages(c, period, i, least, gain, loss);
  }

  lemma RiseAverages(c: seq<real>, period: int, i: nat, least: real, gain: real, loss: real)
    requires 1 <= period <= i < |c| && least > 0.0
    requires forall k :: 0 <= k < |c| - 1 ==> Diff(c)[k] >= least
    requires Averages(c, period, i, gain, loss)
    ensures Share(gain, loss) == 100.0
  {
    RiseGains(c, period, i, least);
    RiseLosses(c, period, i);
    WholeShare(gain);
  }

  lemma RiseGains(c: seq<real>, period: int, i: nat, least: real)
    requires 1 <= period <= i < |c| && least > 0.0
    requires forall k :: 0 <= k < |c| - 1 ==> Diff(c)[k] >= least
    ensures Wilder(Gains(Diff(c)), period)[i - 1].value > 0.0
  {
    AtLeast(Gains(Diff(c)), period, i - 1, least);
  }

  lemma RiseLosses(c: seq<real>, period: int, i: nat)
    requires 1 <= period <= i < |c| && forall k :: 0 <= k < |c| - 1 ==> Diff(c)[k] > 0.0
    ensures Wilder(Losses(Diff(c)), period)[i - 1].value == 0.0
  {
    AllZero(Losses(Diff(c)), period, i - 1);
  }

  lemma AtLeast(x: seq<real>, period: int, i: nat, least: real)
    requires 1 <= period <= i + 1 <= |x| && least > 0.0 && forall k :: 0 <= k < |x| ==> x[k] >= least
    ensures Wilder(x, period)[i].value >= least
  {
    WilderStaysWithin(x, period, i, least, Max(least, Highest(x[..i + 1])));
  }

  lemma AllZero(x: seq<real>, period: int, i: nat)
    requires 1 <= period <= i + 1 <= |x| && forall k :: 0 <= k < |x| ==> x[k] == 0.0
    ensures Wilder(x, period)[i].value == 0.0
  {
    WilderStaysWithin(x, period, i, 0.0, 0.0);
  }

  lemma WholeShare(gain: real)
    requires gain > 0.0
    ensures Share(gain, 0.0) == 100.0
  {
    QuotientIs(gain, gain, 1.0);
  }

  function Negated(c: seq<real>): (n: seq<real>)
    ensures |n| == |c| && forall k :: 0 <= k < |c| ==> n[k] == -c[k]
  {
    seq(|c|, k requires 0 <= k < |c| => -c[k])
  }

  lemma NegationSwaps(c: seq<real>)
    ensures Gains(Diff(Negated(c))) == Losses(Diff(c)) && Losses(Diff(Negated(c))) == Gains(Diff(c))
  {
  }

  /** The index of a series and of its mirror image add up to 100, flat stretches included. */
  lemma RsiMirrors(c: seq<real>, period: int, i: nat)
    requires 1 <= period <= i < |c|
    ensures Rsi(c, period)[i].Some? && Rsi(Negated(c), period)[i].Some?
    ensures Rsi(c, period)[i].value + Rsi(Negated(c), period)[i].value == 100.0
  {
    NegationSwaps(c);
    var gain, loss := RsiIsShare(c, period, i);
    var gain', loss' := RsiIsShare(Negated(c), period, i);
    assert gain' == loss && loss' == gain;
    ShareFacts(gain, loss);
  }
}
