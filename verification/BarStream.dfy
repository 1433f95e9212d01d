/** Bars built as they stream in, and the batch roll-up they must agree with. */
module BarStream {
  import opened Common
  import opened Sorting
  import opened Bars

  const INTRADAY_PERIOD := 300
  const RAW_LIMIT := 5000
  const RAW_KEEP := 4000
  const ENOUGH_BARS := 30

  // ------------------------------------------------------------------ aggregate, as a bucket fill

  /** The bars of the period that starts at `k`, in the order they come. */
  function Only(bars: seq<Bar>, start: real -> int, k: int): seq<Bar> {
    if bars == [] then []
    else
      var n := |bars| - 1;
      Only(bars[..n], start, k) + if start(bars[n].ts) == k then [bars[n]] else []
  }

  lemma {:induction false} OnlyIsFilter(bars: seq<Bar>, start: real -> int, k: int)
    ensures Only(bars, start, k) == Filter((b: Bar) => start(b.ts) == k, bars)
  {
    if bars == [] {
    } else {
      var n := |bars| - 1;
      OnlyIsFilter(bars[..n], start, k);
      FilterLast((b: Bar) => start(b.ts) == k, bars, n);
      assert bars[..n + 1] == bars;
    }
  }

  lemma {:induction false} OnlyConcat(a: seq<Bar>, b: seq<Bar>, start: real -> int, k: int)
    ensures Only(a + b, start, k) == Only(a, start, k) + Only(b, start, k)
  {
    if b == [] {
      assert a + b == a;
    } else {
      assert (a + b)[..|a + b| - 1] == a + b[..|b| - 1];
      OnlyConcat(a, b[..|b| - 1], start, k);
    }
  }

  lemma {:induction false} OnlyAll(bars: seq<Bar>, start: real -> int, k: int)
    requires forall i :: 0 <= i < |bars| ==> start(bars[i].ts) == k
    ensures Only(bars, start, k) == bars
  {
    if bars == [] {
    } else {
      OnlyAll(bars[..|bars| - 1], start, k);
    }
  }

  lemma {:induction false} OnlyNone(bars: seq<Bar>, start: real -> int, k: int)
    requires forall i :: 0 <= i < |bars| ==> start(bars[i].ts) != k
    ensures Only(bars, start, k) == []
  {
    if bars == [] {
    } else {
      OnlyNone(bars[..|bars| - 1], start, k);
    }
  }

  lemma {:induction false} OnlySome(bars: seq<Bar>, start: real -> int, k: int) returns (i: nat)
    requires Only(bars, start, k) != []
    ensures i < |bars| && start(bars[i].ts) == k
  {
    i := |bars| - 1;
    if start(bars[i].ts) != k { i := OnlySome(bars[..i], start, k); }
  }

  lemma OnlyFirst(a: seq<Bar>, b: seq<Bar>, start: real -> int, k: int)
    requires forall x :: x in a ==> start(x.ts) == k
    requires forall x :: x in b ==> start(x.ts) != k
    ensures Only(a + b, start, k) == a
  {
    OnlyConcat(a, b, start, k);
    OnlyAll(a, start, k);
    OnlyNone(b, start, k);
  }

  lemma FirstRunIsOnly(bars: seq<Bar>, start: real -> int)
    requires bars != [] && InOrder(bars, start)
    ensures Only(bars, start, start(bars[0].ts)) == bars[..RunLength(bars, start)]
  {
    var n := RunLength(bars, start);
    RunFacts(bars, start);
    LaterRuns(bars, start);
    assert bars == bars[..n] + bars[n..];
    OnlyFirst(bars[..n], bars[n..], start, start(bars[0].ts));
  }

  lemma OtherPeriodsLater(bars: seq<Bar>, start: real -> int, k: int)
    requires bars != [] && k != start(bars[0].ts)
    ensures Only(bars, start, k) == Only(bars[RunLength(bars, start)..], start, k)
  {
    var n := RunLength(bars, start);
    RunFacts(bars, start);
    assert bars == bars[..n] + bars[n..];
    OnlyConcat(bars[..n], bars[n..], start, k);
    OnlyNone(bars[..n], start, k);
  }

  ghost predicate Rising(keys: seq<int>) {
    forall i, j :: 0 <= i < j < |keys| ==> keys[i] < keys[j]
  }

  /** The keys of `bars` in increasing order: every period with a bar, and no other. */
  ghost predicate KeysOf(keys: seq<int>, bars: seq<Bar>, start: real -> int) {
    && Rising(keys)
    && (forall i :: 0 <= i < |bars| ==> start(bars[i].ts) in keys)
    && (forall j :: 0 <= j < |keys| ==> Only(bars, start, keys[j]) != [])
  }

  lemma FirstKey(keys: seq<int>, bars: seq<Bar>, start: real -> int)
    requires bars != [] && InOrder(bars, start) && KeysOf(keys, bars, start)
    ensures keys != [] && keys[0] == start(bars[0].ts)
  {
    assert start(bars[0].ts) in keys;
    var i := OnlySome(bars, start, keys[0]);
    assert i == 0 || start(bars[0].ts) <= start(bars[i].ts);
  }

  lemma LaterKeys(keys: seq<int>, bars: seq<Bar>, start: real -> int, j: nat)
    requires bars != [] && InOrder(bars, start) && KeysOf(keys, bars, start) && 0 < j < |keys|
    ensures Only(bars, start, keys[j]) == Only(bars[RunLength(bars, start)..], start, keys[j]) != []
  {
    FirstKey(keys, bars, start);
    assert keys[0] < keys[j];
    OtherPeriodsLater(bars, start, keys[j]);
  }

  lemma LaterBarsKeyed(keys: seq<int>, bars: seq<Bar>, start: real -> int, b: Bar)
    requires bars != [] && InOrder(bars, start) && KeysOf(keys, bars, start) && keys != []
    requires b in bars[RunLength(bars, start)..]
    ensures start(b.ts) in keys[1..]
  {
    FirstKey(keys, bars, start);
    LaterRuns(bars, start);
    var i :| 0 <= i < |bars| && bars[i] == b;
    var j :| 0 <= j < |keys| && keys[j] == start(b.ts);
    assert keys[1..][j - 1] == keys[j];
  }

  lemma OtherKeys(keys: seq<int>, bars: seq<Bar>, start: real -> int)
    requires bars != [] && InOrder(bars, start) && KeysOf(keys, bars, start)
    ensures keys != [] && KeysOf(keys[1..], bars[RunLength(bars, start)..], start)
  {
    var tail := bars[RunLength(bars, start)..];
    FirstKey(keys, bars, start);
    forall i | 0 <= i < |tail| ensures start(tail[i].ts) in keys[1..] {
      LaterBarsKeyed(keys, bars, start, tail[i]);
    }
    forall j | 0 <= j < |keys[1..]| ensures Only(tail, start, keys[1..][j]) != [] {
      LaterKeys(keys, bars, start, j + 1);
    }
  }

  /** One bar made from each period in turn. */
  function MakeAll(bars: seq<Bar>, keys: seq<int>, start: real -> int, period: int): seq<Bar>
    requires forall j :: 0 <= j < |keys| ==> Only(bars, start, keys[j]) != []
  {
    seq(|keys|, j requires 0 <= j < |keys| => MakeBar(Only(bars, start, keys[j]), keys[j], period))
  }

  lemma MakeAllSplit(bars: seq<Bar>, keys: seq<int>, start: real -> int, period: int)
    requires bars != [] && InOrder(bars, start) && KeysOf(keys, bars, start)
    ensures keys != [] && KeysOf(keys[1..], bars[RunLength(bars, start)..], start)
    ensures MakeAll(bars, keys, start, period)
         == [MakeBar(bars[..RunLength(bars, start)], start(bars[0].ts), period)]
            + MakeAll(bars[RunLength(bars, start)..], keys[1..], start, period)
  {
    var tail := bars[RunLength(bars, start)..];
    FirstKey(keys, bars, start);
    OtherKeys(keys, bars, start);
    FirstRunIsOnly(bars, start);
    var whole, rest := MakeAll(bars, keys, start, period), MakeAll(tail, keys[1..], start, period);
    forall j | 0 < j < |keys| ensures whole[j] == rest[j - 1] {
      LaterKeys(keys, bars, start, j);
      assert keys[1..][j - 1] == keys[j];
    }
  }

  lemma TailInOrder(bars: seq<Bar>, start: real -> int)
    requires bars != [] && InOrder(bars, start)
    ensures InOrder(bars[RunLength(bars, start)..], start)
  {
    LaterRuns(bars, start);
  }

  /** Period by period, in key order, the roll-up is one bar made from each. */
  lemma {:induction false} RollByKeys(bars: seq<Bar>, keys: seq<int>, start: real -> int, period: int)
    requires InOrder(bars, start) && KeysOf(keys, bars, start)
    ensures Roll(bars, start, period) == MakeAll(bars, keys, start, period)
    decreases |bars|
  {
    if bars == [] {
      assert keys == [] || Only(bars, start, keys[0]) == [];
    } else {
      MakeAllSplit(bars, keys, start, period);
      TailInOrder(bars, start);
      RollByKeys(bars[RunLength(bars, start)..], keys[1..], start, period);
      RollSplit(bars, start, period);
    }
  }

  function AsReal(k: int): real { k as real }

  lemma SortedKeysRise(keys: seq<int>)
    requires Distinct(keys)
    ensures Rising(SortBy(keys, AsReal))
  {
    var sorted := SortBy(keys, AsReal);
    SortFacts(keys, AsReal);
    SortDistinct(keys, AsReal);
    forall i, j | 0 <= i < j < |sorted| ensures sorted[i] < sorted[j] {
      assert AsReal(sorted[i]) <= AsReal(sorted[j]);
    }
  }

  /** Sorting one period's bars is taking that period from the sorted bars. */
  lemma SortOnly(bars: seq<Bar>, start: real -> int, k: int)
    ensures SortBy(Only(bars, start, k), Stamp) == Only(SortBy(bars, Stamp), start, k)
  {
    OnlyIsFilter(bars, start, k);
    OnlyIsFilter(SortBy(bars, Stamp), start, k);
    SortFilter(bars, Stamp, (b: Bar) => start(b.ts) == k);
  }

  /** The buckets, taken in key order, are the periods of the sorted bars. */
  lemma BucketKeys(bars: seq<Bar>, seen: seq<int>, start: real -> int)
    requires Distinct(seen) && Monotone(start)
    requires forall j :: 0 <= j < |bars| ==> start(bars[j].ts) in seen
    requires forall k :: k in seen ==> Only(bars, start, k) != []
    ensures InOrder(SortBy(bars, Stamp), start)
    ensures KeysOf(SortBy(seen, AsReal), SortBy(bars, Stamp), start)
  {
    var sorted, keys := SortBy(bars, Stamp), SortBy(seen, AsReal);
    SortFacts(bars, Stamp);
    SortFacts(seen, AsReal);
    SortedKeysRise(seen);
    SortedInOrder(sorted, start);
    forall i | 0 <= i < |sorted| ensures start(sorted[i].ts) in keys {
      assert sorted[i] in bars;
    }
    forall j | 0 <= j < |keys| ensures Only(sorted, start, keys[j]) != [] {
      assert keys[j] in keys;
      SortOnly(bars, start, keys[j]);
      SortFacts(Only(bars, start, keys[j]), Stamp);
    }
  }

  ghost predicate Grouped(buckets: map<int, seq<Bar>>, bars: seq<Bar>, start: real -> int) {
    forall k :: k in buckets ==> buckets[k] != [] && buckets[k] == Only(bars, start, k)
  }

  ghost predicate StartsSeen(seen: seq<int>, bars: seq<Bar>, start: real -> int) {
    forall j :: 0 <= j < |bars| ==> start(bars[j].ts) in seen
  }

  ghost predicate Listed(buckets: map<int, seq<Bar>>, seen: seq<int>) {
    Distinct(seen) && forall k :: k in seen <==> k in buckets
  }

  /** Exactly the periods of `bars` have a bucket, each with that period's bars in the order they come. */
  ghost predicate Filled(buckets: map<int, seq<Bar>>, seen: seq<int>, bars: seq<Bar>, start: real -> int) {
    Listed(buckets, seen) && Grouped(buckets, bars, start) && StartsSeen(seen, bars, start)
  }

  lemma OnlyNext(bars: seq<Bar>, bar: Bar, start: real -> int, k: int)
    ensures Only(bars + [bar], start, k) == Only(bars, start, k) + if start(bar.ts) == k then [bar] else []
  {
    assert (bars + [bar])[..|bars|] == bars;
  }

  lemma FilledMore(buckets: map<int, seq<Bar>>, seen: seq<int>, bars: seq<Bar>, bar: Bar, start: real -> int, k: int)
    requires Filled(buckets, seen, bars, start) && k == start(bar.ts) && k in buckets
    ensures Filled(buckets[k := buckets[k] + [bar]], seen, bars + [bar], start)
  {
    forall m | m in buckets
      ensures Only(bars + [bar], start, m) == if m == k then buckets[k] + [bar] else buckets[m]
    {
      OnlyNext(bars, bar, start, m);
    }
  }

  lemma GroupedNew(buckets: map<int, seq<Bar>>, bars: seq<Bar>, bar: Bar, start: real -> int, k: int)
    requires Grouped(buckets, bars, start) && k == start(bar.ts) && k !in buckets && Only(bars, start, k) == []
    ensures Grouped(buckets[k := [bar]], bars + [bar], start)
  {
    OnlyNext(bars, bar, start, k);
    forall m | m in buckets ensures Only(bars + [bar], start, m) == buckets[m] {
      OnlyNext(bars, bar, start, m);
    }
  }

  lemma ListedNew(buckets: map<int, seq<Bar>>, seen: seq<int>, k: int, group: seq<Bar>)
    requires Listed(buckets, seen) && k !in buckets
    ensures Listed(buckets[k := group], seen + [k])
  {
  }

  lemma FilledNew(buckets: map<int, seq<Bar>>, seen: seq<int>, bars: seq<Bar>, bar: Bar, start: real -> int, k: int)
    requires Filled(buckets, seen, bars, start) && k == start(bar.ts) && k !in buckets
    ensures Filled(buckets[k := [bar]], seen + [k], bars + [bar], start)
  {
    OnlyNone(bars, start, k);
    GroupedNew(buckets, bars, bar, start, k);
    ListedNew(buckets, seen, k, [bar]);
    assert StartsSeen(seen + [k], bars + [bar], start);
  }

  /** Each bar goes into the bucket of its period, in the order it comes. */
  method FillBuckets(bars: seq<Bar>, start: real -> int) returns (buckets: map<int, seq<Bar>>, seen: seq<int>)
    ensures Filled(buckets, seen, bars, start)
  {
    buckets, seen := map[], [];
    for i := 0 to |bars|
      invariant Filled(buckets, seen, bars[..i], start)
    {
      var k := start(bars[i].ts);
      assert bars[..i] + [bars[i]] == bars[..i + 1];
      if k !in buckets {
        FilledNew(buckets, seen, bars[..i], bars[i], start, k);
        seen := seen + [k];
        buckets := buckets[k := [bars[i]]];
      } else {
        FilledMore(buckets, seen, bars[..i], bars[i], start, k);
        buckets := buckets[k := buckets[k] + [bars[i]]];
      }
    }
    assert bars[..|bars|] == bars;
  }

  /** Fill a bucket per period, then make one bar from each, periods and bars in time order. */
  method AggregateBars(bars: seq<Bar>, period: int) returns (out: seq<Bar>)
    requires period > 0
    ensures out == Aggregate(bars, period)
  {
    StartsMonotone(period);
    out := AggregateBy(bars, Starts(period), period);
  }

  method AggregateBy(bars: seq<Bar>, start: real -> int, period: int) returns (out: seq<Bar>)
    requires Monotone(start)
    ensures out == Roll(SortBy(bars, Stamp), start, period)
  {
    var buckets, seen := FillBuckets(bars, start);
    BucketKeys(bars, seen, start);
    var starts := SortBy(seen, AsReal);
    ghost var whole := MakeAll(SortBy(bars, Stamp), starts, start, period);
    RollByKeys(SortBy(bars, Stamp), starts, start, period);
    BucketBars(bars, buckets, seen, start, period);
    out := MakeBars(buckets, starts, period, whole);
  }

  /** One period's bars in time order. */
  function InTime(group: seq<Bar>): (r: seq<Bar>)
    ensures |r| == |group|
  {
    SortFacts(group, Stamp);
    SortBy(group, Stamp)
  }

  /** Each bucket is there and makes the corresponding bar. */
  ghost predicate Made(buckets: map<int, seq<Bar>>, starts: seq<int>, period: int, whole: seq<Bar>) {
    |whole| == |starts| &&
    forall i :: 0 <= i < |starts| ==>
      && starts[i] in buckets && buckets[starts[i]] != []
      && whole[i] == MakeBar(InTime(buckets[starts[i]]), starts[i], period)
  }

  method MakeBars(buckets: map<int, seq<Bar>>, starts: seq<int>, period: int, ghost whole: seq<Bar>)
    returns (out: seq<Bar>)
    requires Made(buckets, starts, period, whole)
    ensures out == whole
  {
    out := [];
    for i := 0 to |starts|
      invariant out == whole[..i]
    {
      var k := starts[i];
      out := out + [MakeBar(InTime(buckets[k]), k, period)];
    }
  }

  lemma BucketBars(bars: seq<Bar>, buckets: map<int, seq<Bar>>, seen: seq<int>, start: real -> int, period: int)
    requires Filled(buckets, seen, bars, start)
    requires KeysOf(SortBy(seen, AsReal), SortBy(bars, Stamp), start)
    ensures Made(buckets, SortBy(seen, AsReal), period,
                 MakeAll(SortBy(bars, Stamp), SortBy(seen, AsReal), start, period))
  {
    var starts := SortBy(seen, AsReal);
    SortFacts(seen, AsReal);
    forall i | 0 <= i < |starts|
      ensures starts[i] in buckets && buckets[starts[i]] == Only(bars, start, starts[i]) != []
      ensures InTime(buckets[starts[i]]) == Only(SortBy(bars, Stamp), start, starts[i])
    {
      assert starts[i] in starts;
      SortOnly(bars, start, starts[i]);
    }
  }

  // ------------------------------------------------------------------ streaming

  /** Python's `xs[-m:]` for a positive m. */
  function Last(xs: seq<Bar>, m: nat): seq<Bar> {
    if |xs| <= m then xs else xs[|xs| - m..]
  }

  function Before(bars: seq<Bar>, cutoff: real): seq<Bar> {
    Filter((b: Bar) => b.ts < cutoff, bars)
  }

  /** The raw series after one more bar: past the limit only the newest are kept. */
  function Extend(raw: seq<Bar>, bar: Bar): seq<Bar> {
    var all := raw + [bar];
    if |all| > RAW_LIMIT then all[|all| - RAW_KEEP..] else all
  }

  /** The intraday series after the raw series has become `raw`: its tail is replaced by the roll-up. */
  function Replace(intraday: seq<Bar>, raw: seq<Bar>, memory: nat): seq<Bar> {
    var rolled := Aggregate(raw, INTRADAY_PERIOD);
    if rolled == [] then intraday else Last(Before(intraday, rolled[0].ts) + rolled, memory)
  }

  datatype Feed = Feed(raw: seq<Bar>, intraday: seq<Bar>)

  function Absorb(feed: Feed, bar: Bar, memory: nat): Feed {
    var raw := Extend(feed.raw, bar);
    Feed(raw, Replace(feed.intraday, raw, memory))
  }

  /** A feed once history arrives: replaced outright, unless there is none or there was enough already. */
  function Backfilled(feed: Feed, bars: seq<Bar>, memory: nat): Feed {
    if |feed.intraday| > ENOUGH_BARS || bars == [] then feed else feed.(intraday := Last(bars, memory))
  }

  class MarketDataService {
    const memoryBars: nat
    var rawBars: map<string, seq<Bar>>
    var intraday: map<string, seq<Bar>>

    constructor (memoryBars: nat)
      requires memoryBars >= 50
      ensures this.memoryBars == memoryBars && rawBars == map[] && intraday == map[]
    {
      this.memoryBars, rawBars, intraday := memoryBars, map[], map[];
    }

    function FeedOf(symbol: string): Feed
      reads this
    {
      Feed(if symbol in rawBars then rawBars[symbol] else [], if symbol in intraday then intraday[symbol] else [])
    }

    /** Keeps a bounded window of raw bars. */
    method AppendRaw(bar: Bar)
      modifies this`rawBars
      ensures bar.symbol in rawBars
      ensures rawBars == old(rawBars)[bar.symbol := Extend(old(FeedOf(bar.symbol)).raw, bar)]
    {
      var series := (if bar.symbol in rawBars then rawBars[bar.symbol] else []) + [bar];
      if |series| > RAW_LIMIT {
        series := series[|series| - RAW_KEEP..];
      }
      rawBars := rawBars[bar.symbol := series];
    }

    /** Replaces the tail of a symbol's intraday series that the raw bars cover. */
    method ReplaceTail(symbol: string)
      requires symbol in rawBars && memoryBars > 0
      modifies this`intraday
      ensures FeedOf(symbol).intraday == Replace(old(FeedOf(symbol)).intraday, rawBars[symbol], memoryBars)
      ensures forall s :: s != symbol ==> FeedOf(s) == old(FeedOf(s))
    {
      var rolled := AggregateBars(rawBars[symbol], INTRADAY_PERIOD);
      if rolled != [] {
        var existing := if symbol in intraday then intraday[symbol] else [];
        intraday := intraday[symbol := Last(Before(existing, rolled[0].ts) + rolled, memoryBars)];
      }
    }

    /** Accumulates a streamed bar and rolls its symbol's series; other symbols are untouched. */
    method OnBar(bar: Bar)
      requires memoryBars > 0
      modifies this
      ensures FeedOf(bar.symbol) == Absorb(old(FeedOf(bar.symbol)), bar, memoryBars)
      ensures forall s :: s != bar.symbol ==> FeedOf(s) == old(FeedOf(s))
    {
      AppendRaw(bar);
      ReplaceTail(bar.symbol);
    }

    /** What a historical request leaves behind for one symbol, whenever it is answered. */
    method LoadIntraday(symbol: string, bars: seq<Bar>)
      modifies this`intraday
      ensures FeedOf(symbol) == Backfilled(old(FeedOf(symbol)), bars, memoryBars)
      ensures forall s :: s != symbol ==> FeedOf(s) == old(FeedOf(s))
    {
      if symbol in intraday && |intraday[symbol]| > ENOUGH_BARS {
        return;
      }
      if bars != [] {
        intraday := intraday[symbol := Last(bars, memoryBars)];
      }
    }
  }

  // ------------------------------------------------------------------ incremental equals batch

  /** The raw series after streaming bars one by one. */
  function RawAfter(bars: seq<Bar>): seq<Bar> {
    if bars == [] then [] else Extend(RawAfter(bars[..|bars| - 1]), bars[|bars| - 1])
  }

  /** The intraday series after streaming bars one by one onto backfilled history. */
  function IntradayAfter(history: seq<Bar>, bars: seq<Bar>, memory: nat): seq<Bar> {
    if bars == [] then history
    else Replace(IntradayAfter(history, bars[..|bars| - 1], memory), RawAfter(bars), memory)
  }

  /** A feed after the handler has been called once for each bar. */
  function StreamedFrom(feed: Feed, bars: seq<Bar>, memory: nat): Feed {
    if bars == [] then feed else Absorb(StreamedFrom(feed, bars[..|bars| - 1], memory), bars[|bars| - 1], memory)
  }

  /** The same, onto backfilled history. */
  function Streamed(history: seq<Bar>, bars: seq<Bar>, memory: nat): Feed {
    StreamedFrom(Feed([], history), bars, memory)
  }

  /** The two series of a streamed feed, each on its own. */
  lemma {:induction false} StreamedParts(history: seq<Bar>, bars: seq<Bar>, memory: nat)
    ensures Streamed(history, bars, memory) == Feed(RawAfter(bars), IntradayAfter(history, bars, memory))
  {
    if bars == [] {
    } else {
      StreamedParts(history, bars[..|bars| - 1], memory);
    }
  }

  /** What a batch would give: the backfill before the first streamed period, then everything streamed, rolled up. */
  function Batch(history: seq<Bar>, bars: seq<Bar>): seq<Bar>
    requires bars != []
  {
    Before(history, Starts(INTRADAY_PERIOD)(bars[0].ts) as real) + Aggregate(bars, INTRADAY_PERIOD)
  }

  lemma {:induction false} LastBefore(pre: seq<Bar>, rolled: seq<Bar>, m: nat, cutoff: real)
    requires forall b :: b in pre ==> b.ts < cutoff
    requires forall b :: b in rolled ==> b.ts >= cutoff
    ensures Before(Last(pre + rolled, m), cutoff) == if |rolled| <= m then Last(pre, m - |rolled|) else []
  {
    var keep := (b: Bar) => b.ts < cutoff;
    var cut := Last(pre + rolled, m);
    if |rolled| <= m {
      var head := Last(pre, m - |rolled|);
      assert cut == head + rolled;
      FilterConcat(keep, head, rolled);
      FilterAll(keep, head);
      FilterNone(keep, rolled);
    } else {
      assert forall b :: b in cut ==> b in rolled;
      FilterNone(keep, cut);
    }
  }

  /** Cutting to the last m twice, with a tail that only grew in between, is cutting once. */
  lemma LastLast(pre: seq<Bar>, a: seq<Bar>, b: seq<Bar>, m: nat)
    requires |a| <= |b|
    ensures Last((if |a| <= m then Last(pre, m - |a|) else []) + b, m) == Last(pre + b, m)
  {
  }

  /** One more bar in time order never shortens a roll-up. */
  lemma {:induction false} RollGrows(bars: seq<Bar>, bar: Bar, start: real -> int, period: int)
    ensures |Roll(bars, start, period)| <= |Roll(bars + [bar], start, period)|
    decreases |bars|
  {
    if bars == [] {
    } else {
      var n := RunLength(bars, start);
      RunFacts(bars, start);
      if n < |bars| {
        assert (bars + [bar])[..n] == bars[..n];
        RunLengthIs(bars + [bar], start, n);
        assert (bars + [bar])[n..] == bars[n..] + [bar];
        RollGrows(bars[n..], bar, start, period);
      } else {
        assert bars[n..] == [] && |Roll(bars, start, period)| == 1;
      }
    }
  }

  /** Every streamed period starts at or after the first one. */
  lemma RollNotBefore(bars: seq<Bar>, start: real -> int, period: int)
    requires bars != [] && InOrder(bars, start)
    ensures forall c :: c in Roll(bars, start, period) ==> c.ts >= start(bars[0].ts) as real
    ensures Roll(bars, start, period) != [] && Roll(bars, start, period)[0].ts == start(bars[0].ts) as real
  {
    RollSummary(bars, start, period);
    forall c | c in Roll(bars, start, period) ensures c.ts >= start(bars[0].ts) as real {
      var b := RollFrom(bars, start, period, c);
      var i :| 0 <= i < |bars| && bars[i] == b;
      assert i == 0 || start(bars[0].ts) <= start(bars[i].ts);
    }
  }

  /** Replacing the tail of an up-to-date series keeps it up to date, for any history before the cutoff. */
  lemma ReplaceStep(pre: seq<Bar>, old': seq<Bar>, fresh': seq<Bar>, m: nat, cutoff: real)
    requires forall b :: b in pre ==> b.ts < cutoff
    requires forall b :: b in old' ==> b.ts >= cutoff
    requires |old'| <= |fresh'|
    ensures Last(Before(Last(pre + old', m), cutoff) + fresh', m) == Last(pre + fresh', m)
  {
    LastBefore(pre, old', m, cutoff);
    LastLast(pre, old', fresh', m);
  }

  /** How many of `n` streamed bars the raw series has dropped. */
  function Dropped(n: nat): (d: nat)
    ensures d <= n && n - d <= RAW_LIMIT && (n > 0 ==> d < n) && (n <= RAW_LIMIT ==> d == 0)
    ensures n > RAW_LIMIT ==> d > 0
  {
    if n == 0 then 0
    else if n - Dropped(n - 1) > RAW_LIMIT then n - RAW_KEEP
    else Dropped(n - 1)
  }

  /** The cut between the bars kept and the bars dropped so far, if any, falls between two periods. */
  ghost predicate CleanCut(bars: seq<Bar>, start: real -> int) {
    var d := Dropped(|bars|);
    0 < d < |bars| ==> start(bars[d - 1].ts) != start(bars[d].ts)
  }

  /** No trim so far cut a period in two. */
  ghost predicate CleanCuts(bars: seq<Bar>, start: real -> int) {
    bars == [] || (CleanCut(bars, start) && CleanCuts(bars[..|bars| - 1], start))
  }

  lemma {:induction false} NoCutsYet(bars: seq<Bar>, start: real -> int)
    requires |bars| <= RAW_LIMIT
    ensures CleanCuts(bars, start)
  {
    if bars == [] {
    } else {
      NoCutsYet(bars[..|bars| - 1], start);
    }
  }

  lemma ExtendSuffix(bars: seq<Bar>)
    requires bars != []
    ensures var n := |bars| - 1;
            Extend(bars[..n][Dropped(n)..], bars[n]) == bars[Dropped(n + 1)..]
  {
    var n := |bars| - 1;
    assert bars[..n][Dropped(n)..] + [bars[n]] == bars[Dropped(n)..];
  }

  lemma {:induction false} RawIsSuffix(bars: seq<Bar>)
    ensures RawAfter(bars) == bars[Dropped(|bars|)..]
  {
    if bars == [] {
    } else {
      RawIsSuffix(bars[..|bars| - 1]);
      ExtendSuffix(bars);
    }
  }

  lemma InOrderSlice(bars: seq<Bar>, start: real -> int, lo: nat, hi: nat)
    requires InOrder(bars, start) && lo <= hi <= |bars|
    ensures InOrder(bars[lo..hi], start)
  {
  }

  /** Everything before a clean cut rolls up to bars that start before it. */
  lemma BeforeCut(bars: seq<Bar>, d: nat, start: real -> int, period: int)
    requires InOrder(bars, start) && 0 < d < |bars| && start(bars[d - 1].ts) != start(bars[d].ts)
    ensures forall c :: c in Roll(bars[..d], start, period) ==> c.ts < start(bars[d].ts) as real
  {
    forall c | c in Roll(bars[..d], start, period) ensures c.ts < start(bars[d].ts) as real {
      var b := RollFrom(bars[..d], start, period, c);
      var i :| 0 <= i < d && bars[i] == b;
      assert start(bars[d - 1].ts) <= start(bars[d].ts);
      assert i == d - 1 || start(bars[i].ts) <= start(bars[d - 1].ts);
    }
  }

  /** What stands in front of the kept bars: backfill and everything dropped, rolled up. */
  function Front(history: seq<Bar>, bars: seq<Bar>, d: nat, start: real -> int, period: int): seq<Bar>
    requires bars != [] && d <= |bars|
  {
    Before(history, start(bars[0].ts) as real) + Roll(bars[..d], start, period)
  }

  lemma FrontBeforeCut(history: seq<Bar>, bars: seq<Bar>, d: nat, start: real -> int, period: int)
    requires InOrder(bars, start) && d < |bars| && (d > 0 ==> start(bars[d - 1].ts) != start(bars[d].ts))
    ensures forall b :: b in Front(history, bars, d, start, period) ==> b.ts < start(bars[d].ts) as real
  {
    if d > 0 {
      BeforeCut(bars, d, start, period);
      assert start(bars[0].ts) <= start(bars[d].ts);
    }
  }

  lemma SplitAtCut(bars: seq<Bar>, d: nat, n: nat, start: real -> int, period: int)
    requires d <= n <= |bars| && (0 < d < n ==> start(bars[d - 1].ts) != start(bars[d].ts))
    ensures Roll(bars[..n], start, period) == Roll(bars[..d], start, period) + Roll(bars[d..n], start, period)
  {
    assert bars[..n] == bars[..d] + bars[d..n];
    RollConcat(bars[..d], bars[d..n], start, period);
  }

  /** One more bar never shortens the roll-up of the kept bars. */
  lemma KeptGrows(bars: seq<Bar>, d: nat, start: real -> int, period: int)
    requires d < |bars|
    ensures |Roll(bars[d..|bars| - 1], start, period)| <= |Roll(bars[d..], start, period)|
  {
    var n := |bars| - 1;
    assert bars[d..] == bars[d..n] + [bars[n]];
    RollGrows(bars[d..n], bars[n], start, period);
  }

  /** None of the kept bars rolls up to one that starts before the cut. */
  lemma KeptNotBefore(kept: seq<Bar>, first: Bar, start: real -> int, period: int)
    requires InOrder(kept, start) && (kept != [] ==> kept[0] == first)
    ensures forall c :: c in Roll(kept, start, period) ==> c.ts >= start(first.ts) as real
  {
    if kept != [] { RollNotBefore(kept, start, period); }
  }

  /** Replacing the roll-up of the kept bars, behind what was dropped before them. */
  lemma StreamAlgebra(pre: seq<Bar>, dropped: seq<Bar>, was: seq<Bar>, now: seq<Bar>, memory: nat, cut: real)
    requires forall b :: b in pre + dropped ==> b.ts < cut
    requires forall b :: b in was ==> b.ts >= cut
    requires |was| <= |now|
    ensures Last(Before(Last(pre + (dropped + was), memory), cut) + now, memory) == Last(pre + (dropped + now), memory)
  {
    var front := pre + dropped;
    assert pre + (dropped + was) == front + was && pre + (dropped + now) == front + now;
    ReplaceStep(front, was, now, memory, cut);
  }

  /** How the roll-up of everything streamed splits at a clean cut, before and after the newest bar. */
  lemma SplitBoth(bars: seq<Bar>, d: nat, start: real -> int, period: int)
    requires d < |bars| && (d > 0 ==> start(bars[d - 1].ts) != start(bars[d].ts))
    ensures Roll(bars[..|bars| - 1], start, period)
         == Roll(bars[..d], start, period) + Roll(bars[d..|bars| - 1], start, period)
    ensures Roll(bars, start, period) == Roll(bars[..d], start, period) + Roll(bars[d..], start, period)
  {
    var n := |bars| - 1;
    SplitAtCut(bars, d, n, start, period);
    SplitAtCut(bars, d, n + 1, start, period);
    assert bars[..n + 1] == bars && bars[d..n + 1] == bars[d..];
  }

  /** One streamed bar, once the raw series is bars[d..] and the cut at d is clean. */
  lemma StreamStep(history: seq<Bar>, bars: seq<Bar>, d: nat, memory: nat, start: real -> int, period: int,
                   all: seq<Bar>, prev: seq<Bar>, kept: seq<Bar>)
    requires InOrder(bars, start) && d < |bars| && (d > 0 ==> start(bars[d - 1].ts) != start(bars[d].ts))
    requires all == Roll(bars, start, period) && prev == Roll(bars[..|bars| - 1], start, period)
    requires kept == Roll(bars[d..], start, period)
    ensures var pre, cut := Before(history, start(bars[0].ts) as real), start(bars[d].ts) as real;
            Last(Before(Last(pre + prev, memory), cut) + kept, memory) == Last(pre + all, memory)
  {
    var pre := Before(history, start(bars[0].ts) as real);
    var dropped, was := Roll(bars[..d], start, period), Roll(bars[d..|bars| - 1], start, period);
    SplitBoth(bars, d, start, period);
    FrontBeforeCut(history, bars, d, start, period);
    KeptGrows(bars, d, start, period);
    InOrderSlice(bars, start, d, |bars| - 1);
    KeptNotBefore(bars[d..|bars| - 1], bars[d], start, period);
    StreamAlgebra(pre, dropped, was, kept, memory, start(bars[d].ts) as real);
  }

  /** What `aggregate` makes of bars already in time order, and where it starts. */
  lemma AggregateSorted(bars: seq<Bar>)
    requires bars != [] && SortedBy(bars, Stamp)
    ensures Aggregate(bars, INTRADAY_PERIOD) == Roll(bars, Starts(INTRADAY_PERIOD), INTRADAY_PERIOD)
    ensures Aggregate(bars, INTRADAY_PERIOD) != []
    ensures Aggregate(bars, INTRADAY_PERIOD)[0].ts == Starts(INTRADAY_PERIOD)(bars[0].ts) as real
    ensures InOrder(bars, Starts(INTRADAY_PERIOD))
  {
    SortSorted(bars, Stamp);
    StartsMonotone(INTRADAY_PERIOD);
    SortedInOrder(bars, Starts(INTRADAY_PERIOD));
    RollNotBefore(bars, Starts(INTRADAY_PERIOD), INTRADAY_PERIOD);
  }

  lemma ReplaceSorted(intraday: seq<Bar>, raw: seq<Bar>, memory: nat)
    requires raw != [] && SortedBy(raw, Stamp)
    ensures Replace(intraday, raw, memory)
         == Last(Before(intraday, Starts(INTRADAY_PERIOD)(raw[0].ts) as real) + Aggregate(raw, INTRADAY_PERIOD), memory)
  {
    AggregateSorted(raw);
  }

  lemma SliceSorted(bars: seq<Bar>, lo: nat, hi: nat)
    requires SortedBy(bars, Stamp) && lo <= hi <= |bars|
    ensures SortedBy(bars[lo..hi], Stamp)
  {
  }

  lemma FirstBatch(history: seq<Bar>, bars: seq<Bar>, memory: nat)
    requires |bars| == 1
    ensures Replace(history, bars, memory) == Last(Batch(history, bars), memory)
  {
    AggregateSorted(bars);
    ReplaceSorted(history, bars, memory);
  }

  lemma LaterBatch(history: seq<Bar>, bars: seq<Bar>, d: nat, memory: nat)
    requires SortedBy(bars, Stamp) && d < |bars| && |bars| > 1
    requires d > 0 ==> Starts(INTRADAY_PERIOD)(bars[d - 1].ts) != Starts(INTRADAY_PERIOD)(bars[d].ts)
    ensures Replace(Last(Batch(history, bars[..|bars| - 1]), memory), bars[d..], memory)
            == Last(Batch(history, bars), memory)
  {
    var n := |bars| - 1;
    SliceSorted(bars, d, n + 1);
    SliceSorted(bars, 0, n);
    assert bars[d..n + 1] == bars[d..] && bars[0..n] == bars[..n];
    AggregateSorted(bars);
    AggregateSorted(bars[..n]);
    AggregateSorted(bars[d..]);
    StreamStep(history, bars, d, memory, Starts(INTRADAY_PERIOD), INTRADAY_PERIOD, Aggregate(bars, INTRADAY_PERIOD),
               Aggregate(bars[..n], INTRADAY_PERIOD), Aggregate(bars[d..], INTRADAY_PERIOD));
    ReplaceSorted(Last(Batch(history, bars[..n]), memory), bars[d..], memory);
  }

  /** One streamed bar, in terms of batches. */
  lemma BatchStep(history: seq<Bar>, bars: seq<Bar>, d: nat, memory: nat)
    requires SortedBy(bars, Stamp) && d < |bars|
    requires d > 0 ==> Starts(INTRADAY_PERIOD)(bars[d - 1].ts) != Starts(INTRADAY_PERIOD)(bars[d].ts)
    ensures var n := |bars| - 1;
            var was := if n == 0 then history else Last(Batch(history, bars[..n]), memory);
            Replace(was, bars[d..], memory) == Last(Batch(history, bars), memory)
  {
    if |bars| == 1 {
      assert bars[0..] == bars;
      FirstBatch(history, bars, memory);
    } else {
      LaterBatch(history, bars, d, memory);
    }
  }

  lemma PrefixSorted(bars: seq<Bar>, n: nat)
    requires SortedBy(bars, Stamp) && n <= |bars|
    ensures SortedBy(bars[..n], Stamp)
  {
  }

  lemma IntradayStep(history: seq<Bar>, bars: seq<Bar>, memory: nat)
    requires bars != []
    ensures IntradayAfter(history, bars, memory)
         == Replace(IntradayAfter(history, bars[..|bars| - 1], memory), bars[Dropped(|bars|)..], memory)
  {
    RawIsSuffix(bars);
  }

  lemma NothingStreamed(history: seq<Bar>, memory: nat)
    ensures IntradayAfter(history, [], memory) == history
  {
  }

  lemma {:induction false} IntradayIsBatch(history: seq<Bar>, bars: seq<Bar>, memory: nat)
    requires bars != [] && SortedBy(bars, Stamp) && CleanCuts(bars, Starts(INTRADAY_PERIOD))
    ensures IntradayAfter(history, bars, memory) == Last(Batch(history, bars), memory)
    decreases |bars|
  {
    var n := |bars| - 1;
    assert CleanCut(bars, Starts(INTRADAY_PERIOD));
    if n == 0 {
      assert bars[..n] == [];
      NothingStreamed(history, memory);
    } else {
      PrefixSorted(bars, n);
      IntradayIsBatch(history, bars[..n], memory);
    }
    IntradayStep(history, bars, memory);
    BatchStep(history, bars, Dropped(n + 1), memory);
  }

  /**
   * Incremental equals batch. For bars streamed in time order onto any backfilled history, and as long
   * as no trim of the raw series cut a period in two, the series in memory after each bar is the last
   * `memory` bars of the batch.
   */
  lemma IncrementalIsBatch(history: seq<Bar>, bars: seq<Bar>, memory: nat)
    requires bars != [] && SortedBy(bars, Stamp) && CleanCuts(bars, Starts(INTRADAY_PERIOD))
    ensures Streamed(history, bars, memory).intraday == Last(Batch(history, bars), memory)
  {
    StreamedParts(history, bars, memory);
    IntradayIsBatch(history, bars, memory);
  }

  /** Up to the first trim every run is clean, so the agreement is unconditional. */
  lemma IncrementalIsBatchUntilTrim(history: seq<Bar>, bars: seq<Bar>, memory: nat)
    requires bars != [] && SortedBy(bars, Stamp) && |bars| <= RAW_LIMIT
    ensures Streamed(history, bars, memory) == Feed(bars, Last(Batch(history, bars), memory))
  {
    NoCutsYet(bars, Starts(INTRADAY_PERIOD));
    StreamedParts(history, bars, memory);
    IncrementalIsBatch(history, bars, memory);
    RawIsSuffix(bars);
  }

  // ------------------------------------------------------------------ backfill that arrives late

  lemma LastOfConcat(early: seq<Bar>, late: seq<Bar>)
    requires late != []
    ensures (early + late)[..|early + late| - 1] == early + late[..|late| - 1]
    ensures (early + late)[|early + late| - 1] == late[|late| - 1]
  {
  }

  /** The first bar after the backfill already makes the series the batch, whatever was there before. */
  lemma FirstAfterBackfill(history: seq<Bar>, bars: seq<Bar>, memory: nat)
    requires bars != [] && SortedBy(bars, Stamp) && Dropped(|bars|) == 0
    ensures Replace(history, RawAfter(bars), memory) == Last(Batch(history, bars), memory)
  {
    RawIsSuffix(bars);
    assert bars[0..] == bars;
    ReplaceSorted(history, bars, memory);
  }

  /** Whether a feed is what it would be had the history been there before any bar. */
  ghost predicate IsBatch(feed: Feed, history: seq<Bar>, bars: seq<Bar>, memory: nat)
    requires bars != []
  {
    feed == Feed(RawAfter(bars), Last(Batch(history, bars), memory))
  }

  lemma AbsorbKeepsBatch(feed: Feed, history: seq<Bar>, all: seq<Bar>, memory: nat)
    requires |all| > 1 && SortedBy(all, Stamp) && CleanCuts(all, Starts(INTRADAY_PERIOD))
    requires IsBatch(feed, history, all[..|all| - 1], memory)
    ensures IsBatch(Absorb(feed, all[|all| - 1], memory), history, all, memory)
  {
    var d := Dropped(|all|);
    assert CleanCut(all, Starts(INTRADAY_PERIOD));
    RawIsSuffix(all);
    LaterBatch(history, all, d, memory);
  }

  lemma AbsorbMakesBatch(feed: Feed, all: seq<Bar>, memory: nat)
    requires all != [] && SortedBy(all, Stamp) && |all| <= RAW_LIMIT && feed.raw == RawAfter(all[..|all| - 1])
    ensures IsBatch(Absorb(feed, all[|all| - 1], memory), feed.intraday, all, memory)
  {
    FirstAfterBackfill(feed.intraday, all, memory);
  }

  lemma CleanInit(all: seq<Bar>, start: real -> int)
    requires CleanCuts(all, start) && all != []
    ensures CleanCuts(all[..|all| - 1], start)
  {
  }

  /**
   * A subscription streams before its history arrives. Whatever had been streamed and remembered by then,
   * if the history lands before the first trim, the feed after every later bar is the same as if it had
   * been there from the start.
   */
  lemma {:induction false} LateBackfillIsBatch(feed: Feed, early: seq<Bar>, late: seq<Bar>, memory: nat)
    requires feed.raw == RawAfter(early) && late != [] && |early| < RAW_LIMIT
    requires SortedBy(early + late, Stamp) && CleanCuts(early + late, Starts(INTRADAY_PERIOD))
    ensures IsBatch(StreamedFrom(feed, late, memory), feed.intraday, early + late, memory)
    decreases |late|
  {
    var all, init := early + late, late[..|late| - 1];
    LastOfConcat(early, late);
    if init == [] {
      assert early + init == early;
      AbsorbMakesBatch(feed, all, memory);
    } else {
      PrefixSorted(all, |all| - 1);
      CleanInit(all, Starts(INTRADAY_PERIOD));
      LateBackfillIsBatch(feed, early, init, memory);
      AbsorbKeepsBatch(StreamedFrom(feed, init, memory), feed.intraday, all, memory);
    }
  }

  /** The newest `memory` bars, in order. */
  ghost predicate AreNewest(kept: seq<Bar>, bars: seq<Bar>, memory: nat) {
    && |kept| == (if |bars| <= memory then |bars| else memory)
    && forall i :: 0 <= i < |kept| ==> kept[i] == bars[|bars| - |kept| + i]
  }

  /**
   * What late history changes: with at most thirty bars in memory, its newest bars stand in front of whatever
   * streams from then on; with more, or without history, what was there before does.
   */
  lemma LateHistoryCounts(feed: Feed, history: seq<Bar>, early: seq<Bar>, late: seq<Bar>, memory: nat, front: seq<Bar>)
    requires feed.raw == RawAfter(early) && late != [] && |early| < RAW_LIMIT
    requires SortedBy(early + late, Stamp) && CleanCuts(early + late, Starts(INTRADAY_PERIOD))
    requires if |feed.intraday| <= 30 && history != [] then AreNewest(front, history, memory)
             else front == feed.intraday
    ensures Backfilled(feed, history, memory) == Feed(feed.raw, front)
    ensures IsBatch(StreamedFrom(Backfilled(feed, history, memory), late, memory), front, early + late, memory)
  {
    if |feed.intraday| <= 30 && history != [] { assert front == Last(history, memory); }
    LateBackfillIsBatch(Backfilled(feed, history, memory), early, late, memory);
  }
}
