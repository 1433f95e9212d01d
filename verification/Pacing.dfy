/** Rate limiting: the token bucket, the historical-data pacer and the order-rate breaker. */
module Pacing {
  import opened Common

  // ------------------------------------------------------------------ histories

  ghost predicate Ascending(ts: seq<real>) {
    forall i, j :: 0 <= i <= j < |ts| ==> ts[i] <= ts[j]
  }

  /** Any `n` + 1 consecutive events span at least `window`. */
  ghost predicate SpreadOut(ts: seq<real>, n: nat, window: real) {
    forall i, j :: 0 <= i && i + n <= j < |ts| ==> ts[i] + window <= ts[j]
  }

  function CountIf(ts: seq<real>, inside: real -> bool): nat {
    if ts == [] then 0
    else CountIf(ts[..|ts| - 1], inside) + if inside(ts[|ts| - 1]) then 1 else 0
  }

  lemma {:induction false} CountSkips(ts: seq<real>, inside: real -> bool, k: nat)
    requires k <= |ts| && forall i :: 0 <= i < k ==> !inside(ts[i])
    ensures CountIf(ts, inside) <= |ts| - k
  {
    if k < |ts| {
      CountSkips(ts[..|ts| - 1], inside, k);
    } else if ts != [] {
      CountSkips(ts[..|ts| - 1], inside, k - 1);
    }
  }

  /**
   * A history in which any n + 1 consecutive events span the window has at most n events in any
   * stretch of time shorter than the window: every half-open interval of that length, for one.
   */
  lemma {:induction false} WindowBound(ts: seq<real>, n: nat, window: real, inside: real -> bool)
    requires Ascending(ts) && SpreadOut(ts, n, window)
    requires forall x, y :: inside(x) && inside(y) ==> y - x < window
    ensures CountIf(ts, inside) <= n
  {
    if ts == [] {
    } else {
      var last := |ts| - 1;
      if !inside(ts[last]) {
        WindowBound(ts[..last], n, window, inside);
      } else if last >= n {
        assert ts[last - n] + window <= ts[last];
        CountSkips(ts, inside, last - n + 1);
      } else {
        CountSkips(ts, inside, 0);
      }
    }
  }

  /** A monotonic clock. Sleeping lasts at least as long as asked, and possibly longer. */
  class Clock {
    var now: real
    /** By how much all sleeps so far were longer than asked. */
    ghost var over: real

    constructor () { now, over := 0.0, 0.0; }

    method Sleep(duration: real)
      modifies this
      ensures over >= old(over) && now == old(now) + Max(duration, 0.0) + (over - old(over))
    {
      var late: real := *;
      now := now + Max(duration, 0.0) + Max(late, 0.0);
      over := over + Max(late, 0.0);
    }
  }

  // ------------------------------------------------------------------ token bucket

  /** One charge: when, the running total before and after it, and the tokens minted by then. */
  datatype Charge = Charge(at: real, before: real, after: real, minted: real) {
    function Amount(): real { after - before }
  }

  function Charged(cs: seq<Charge>): real {
    if cs == [] then 0.0 else Charged(cs[..|cs| - 1]) + cs[|cs| - 1].Amount()
  }

  /** The bucket's history: every charge, what they come to, and the tokens minted so far. */
  datatype Ledger = Ledger(charges: seq<Charge>, total: real, minted: real)

  ghost predicate Chained(cs: seq<Charge>) {
    forall i, j :: 0 <= i && j == i + 1 < |cs| ==> cs[j].before == cs[i].after
  }

  lemma {:induction false} ChainedSum(cs: seq<Charge>, i: nat, j: nat)
    requires Chained(cs) && i < j <= |cs|
    ensures Charged(cs[i..j]) == cs[j - 1].after - cs[i].before
  {
    assert cs[i..j][..j - 1 - i] == cs[i..j - 1];
    if i + 1 == j {
    } else {
      ChainedSum(cs, i, j - 1);
      assert cs[j - 1].before == cs[j - 2].after;
    }
  }

  /** Between any two charges, minting has paid for everything charged. */
  ghost predicate Paid(cs: seq<Charge>, capacity: real) {
    && Chained(cs)
    && forall i, j :: 0 <= i <= j < |cs| ==> cs[j].after - cs[i].before <= capacity + cs[j].minted - cs[i].minted
  }

  /** Since any charge, minting has also paid for what is left over. */
  ghost predicate Solvent(l: Ledger, tokens: real, capacity: real) {
    && 0.0 <= tokens <= capacity
    && (l.charges != [] ==> l.charges[|l.charges| - 1].after == l.total)
    && forall i :: 0 <= i < |l.charges| ==>
         l.total - l.charges[i].before + tokens <= capacity + l.minted - l.charges[i].minted
  }

  /** What had been minted at each charge is the rate times the time since the start. */
  ghost predicate Stamped(cs: seq<Charge>, rate: real, start: real) {
    forall i :: 0 <= i < |cs| ==> cs[i].minted == Minted(rate, start, cs[i].at)
  }

  lemma MintSolvent(l: Ledger, tokens: real, capacity: real, extra: real)
    requires Solvent(l, tokens, capacity) && extra >= 0.0
    ensures Solvent(l.(minted := l.minted + extra), Min(capacity, tokens + extra), capacity)
  {
  }

  /** Tokens minted over a stretch of time. */
  function Minted(rate: real, from: real, upto: real): real { (upto - from) * rate }

  lemma MintTime(rate: real, start: real, last: real, now: real)
    requires rate > 0.0 && last <= now
    ensures Minted(rate, start, now) == Minted(rate, start, last) + Minted(rate, last, now)
    ensures Minted(rate, last, now) >= 0.0
    ensures last == now ==> Minted(rate, last, now) == 0.0
  {
  }

  function Book(l: Ledger, last: real, need: real): Ledger {
    Ledger(l.charges + [Charge(last, l.total, l.total + need, l.minted)], l.total + need, l.minted)
  }

  lemma BookSolvent(l: Ledger, tokens: real, capacity: real, last: real, need: real)
    requires Paid(l.charges, capacity) && Solvent(l, tokens, capacity) && 0.0 <= need <= tokens
    ensures Paid(Book(l, last, need).charges, capacity)
    ensures Solvent(Book(l, last, need), tokens - need, capacity)
  {
  }

  lemma BookStamped(l: Ledger, rate: real, start: real, last: real, need: real)
    requires Stamped(l.charges, rate, start) && l.minted == Minted(rate, start, last)
    ensures Stamped(Book(l, last, need).charges, rate, start)
  {
  }

  lemma StampedPair(cs: seq<Charge>, rate: real, start: real, i: nat, j: nat)
    requires Stamped(cs, rate, start) && i < j <= |cs|
    ensures cs[j - 1].minted - cs[i].minted == Minted(rate, cs[i].at, cs[j - 1].at)
  {
    var a, b := cs[i], cs[j - 1];
    assert a.minted == Minted(rate, start, a.at) && b.minted == Minted(rate, start, b.at);
  }

  /** What was minted between two charges is at most what a wider interval of time mints. */
  lemma MintedBetween(cs: seq<Charge>, rate: real, start: real, i: nat, j: nat, from: real, upto: real)
    requires Stamped(cs, rate, start) && rate > 0.0 && i < j <= |cs|
    requires from <= cs[i].at && cs[j - 1].at <= upto
    ensures cs[j - 1].minted - cs[i].minted <= Minted(rate, from, upto)
  {
    StampedPair(cs, rate, start, i, j);
    WiderInterval(rate, cs[i].at, cs[j - 1].at, from, upto);
  }

  lemma PairBound(cs: seq<Charge>, capacity: real, minted: real, i: nat, j: nat)
    requires Paid(cs, capacity) && i < j <= |cs| && cs[j - 1].minted - cs[i].minted <= minted
    ensures Charged(cs[i..j]) <= capacity + minted
  {
    ChainedSum(cs, i, j);
  }

  /** `after` is `before` with one charge of `need` at time `at` added. */
  ghost predicate Took(before: seq<Charge>, after: seq<Charge>, at: real, need: real) {
    && |after| == |before| + 1 && after[..|before|] == before
    && after[|before|].at == at && after[|before|].Amount() == need
  }

  lemma RateTimes(rate: real, span: real)
    requires rate > 0.0 && span >= 0.0
    ensures span * rate >= 0.0
  {
  }

  lemma WiderInterval(rate: real, a: real, b: real, from: real, upto: real)
    requires rate > 0.0 && from <= a && b <= upto
    ensures Minted(rate, a, b) <= Minted(rate, from, upto)
  {
    RateTimes(rate, (upto - from) - (b - a));
  }

  lemma MintMonotone(rate: real, last: real, ready: real, now: real)
    requires rate > 0.0 && ready <= now
    ensures Minted(rate, last, ready) <= Minted(rate, last, now)
  {
    RateTimes(rate, now - ready);
  }

  lemma WaitMints(rate: real, deficit: real, now: real)
    requires rate > 0.0 && deficit > 0.0
    ensures deficit / rate > 0.0
    ensures Minted(rate, now, now + deficit / rate) >= deficit && (deficit / rate) * rate == deficit
  {
    assert (deficit / rate) * rate == deficit;
  }

  class TokenBucket {
    const rate: real
    const capacity: real
    var tokens: real
    var last: real
    ghost var ledger: Ledger
    ghost const start: real

    ghost predicate Valid()
      reads this
    {
      && rate > 0.0 && ledger.minted == Minted(rate, start, last) && Stamped(ledger.charges, rate, start)
      && Paid(ledger.charges, capacity) && Solvent(ledger, tokens, capacity)
    }

    constructor (rate: real, capacity: Option<real>, clock: Clock)
      requires capacity.Some? ==> capacity.value >= 0.0
      ensures Valid() && ledger.charges == [] && last == clock.now && tokens == this.capacity
      ensures this.rate == Max(rate, 0.001)
      ensures this.capacity == if capacity.Some? then capacity.value else Max(rate, 0.001)
    {
      this.rate := Max(rate, 0.001);
      this.capacity := if capacity.Some? then capacity.value else Max(rate, 0.001);
      tokens := if capacity.Some? then capacity.value else Max(rate, 0.001);
      last, start := clock.now, clock.now;
      ledger := Ledger([], 0.0, 0.0);
    }

    method Refill(clock: Clock)
      requires Valid() && last <= clock.now
      modifies this`tokens, this`last, this`ledger
      ensures Valid() && last == clock.now && ledger.charges == old(ledger.charges)
      ensures tokens == Min(capacity, old(tokens) + (clock.now - old(last)) * rate)
      ensures tokens == Min(capacity, old(tokens) + Minted(rate, old(last), clock.now))
    {
      MintTime(rate, start, last, clock.now);
      var elapsed := clock.now - last;
      if elapsed > 0.0 {
        var extra := Minted(rate, last, clock.now);
        MintSolvent(ledger, tokens, capacity, extra);
        ledger := ledger.(minted := ledger.minted + extra);
        tokens := Min(capacity, tokens + extra);
        last := clock.now;
      }
    }

    method Consume(need: real)
      requires Valid() && 0.0 <= need <= tokens
      modifies this`tokens, this`ledger
      ensures Valid() && tokens == old(tokens) - need && ledger == Book(old(ledger), last, need)
    {
      BookSolvent(ledger, tokens, capacity, last, need);
      BookStamped(ledger, rate, start, last, need);
      tokens := tokens - need;
      ledger := Book(ledger, last, need);
    }

    /** By time `at`, enough will have been minted for `need`. */
    ghost predicate ReadyBy(need: real, at: real)
      reads this
    {
      tokens + Minted(rate, last, at) >= need
    }

    /** The time to sleep at `now` is what it takes to mint what is missing, but never under a millisecond. */
    ghost predicate IsWait(need: real, now: real, slept: real)
      requires rate > 0.0
      reads this
    {
      slept == Max((need - tokens - Minted(rate, last, now)) / rate, 0.001)
    }

    /**
     * One look at the bucket: take the tokens if they are there, else say how long to sleep. A look at
     * or after a time the bucket is known to be ready by takes them.
     */
    method Look(need: real, clock: Clock, ghost ready: Option<real>) returns (taken: bool, wait: real)
      requires Valid() && last <= clock.now && 0.0 <= need <= capacity
      requires ready.Some? ==> ReadyBy(need, ready.value) && ready.value <= clock.now
      modifies this`tokens, this`last, this`ledger
      ensures Valid() && last == clock.now
      ensures ready.Some? ==> taken
      ensures taken <==> old(ReadyBy(need, clock.now))
      ensures taken ==> Took(old(ledger.charges), ledger.charges, clock.now, need)
      ensures !taken ==> ledger.charges == old(ledger.charges) && wait > 0.0
      ensures !taken ==> wait == (need - old(tokens) - Minted(rate, old(last), clock.now)) / rate
      ensures !taken ==> ReadyBy(need, clock.now + wait)
    {
      if ready.Some? {
        MintMonotone(rate, last, ready.value, clock.now);
      }
      Refill(clock);
      if tokens >= need {
        Consume(need);
        return true, 0.0;
      }
      WaitMints(rate, need - tokens, clock.now);
      return false, (need - tokens) / rate;
    }

    /**
     * Waits until the tokens are there, then takes them: at once if they are, else after one sleep of exactly
     * the time it takes to mint what is missing.
     */
    method Acquire(n: nat, clock: Clock) returns (checks: nat, ghost slept: real)
      requires Valid() && last <= clock.now
      modifies this`tokens, this`last, this`ledger, clock
      ensures Valid() && last == clock.now && old(clock.now) <= clock.now
      ensures Took(old(ledger.charges), ledger.charges, clock.now, Min(n as real, capacity))
      ensures 1 <= checks <= 2 && clock.now == old(clock.now) + slept + (clock.over - old(clock.over))
      ensures checks == 1 <==> old(ReadyBy(Min(n as real, capacity), clock.now))
      ensures checks == 1 ==> slept == 0.0 && clock.over == old(clock.over)
      ensures checks == 2 ==> old(IsWait(Min(n as real, capacity), clock.now, slept))
    {
      var need := Min(n as real, capacity);
      ghost var ready: Option<real> := None;
      checks, slept := 0, 0.0;
      while true
        invariant Valid() && last <= clock.now && old(clock.now) <= clock.now
        invariant ledger.charges == old(ledger.charges)
        invariant checks <= 1 && (checks == 1 <==> ready.Some?)
        invariant checks == 0 ==> unchanged(this) && unchanged(clock) && slept == 0.0
        invariant checks == 1 ==> !old(ReadyBy(need, clock.now)) && old(IsWait(need, clock.now, slept))
        invariant clock.now == old(clock.now) + slept + (clock.over - old(clock.over))
        invariant ready.Some? ==> ReadyBy(need, ready.value) && ready.value <= clock.now
        decreases 1 - checks
      {
        checks := checks + 1;
        var taken, wait := Look(need, clock, ready);
        if taken {
          return;
        }
        ready := Some(clock.now + wait);
        slept := Max(wait, 0.001);
        clock.Sleep(Max(wait, 0.001));
      }
    }

    /**
     * The tokens charged in any interval of time are at most a full bucket plus what is minted in it:
     * i and j delimit the charges that fall in [from, upto].
     */
    lemma ChargedBetween(i: nat, j: nat, from: real, upto: real)
      requires Valid() && i < j <= |ledger.charges|
      requires from <= ledger.charges[i].at && ledger.charges[j - 1].at <= upto
      ensures Charged(ledger.charges[i..j]) <= capacity + (upto - from) * rate
    {
      MintedBetween(ledger.charges, rate, start, i, j, from, upto);
      PairBound(ledger.charges, capacity, Minted(rate, from, upto), i, j);
    }
  }

  // ------------------------------------------------------------------ historical-data pacer

  /** How many more times a penalty can double before it reaches its ceiling of 8. */
  function Headroom(penalty: real): nat {
    if penalty == 1.0 then 3 else if penalty == 2.0 then 2 else if penalty == 4.0 then 1 else 0
  }

  predicate IsPenalty(penalty: real) {
    penalty == 1.0 || penalty == 2.0 || penalty == 4.0 || penalty == 8.0
  }

  /** `spacing * penalty`, spelled out for the four penalties there are. */
  ghost function Scaled(spacing: real, penalty: real): real {
    if penalty == 1.0 then spacing else if penalty == 2.0 then 2.0 * spacing
    else if penalty == 4.0 then 4.0 * spacing else 8.0 * spacing
  }

  lemma ScaledIsProduct(spacing: real, penalty: real)
    requires IsPenalty(penalty)
    ensures Scaled(spacing, penalty) == spacing * penalty
  {
  }

  /** Every grant but the first came at least its own spacing after the one before. */
  ghost predicate KeptSpacing(grants: seq<real>, spacings: seq<real>)
    requires |grants| == |spacings|
  {
    forall i, j :: 0 <= i && j == i + 1 < |grants| ==> grants[j] - grants[i] >= spacings[j]
  }

  /** A grant made while all but fewer than `n` of the earlier ones are a window old keeps the history spread out. */
  lemma GrantSpread(grants: seq<real>, forgotten: nat, n: nat, window: real, now: real)
    requires SpreadOut(grants, n, window) && forgotten <= |grants| < forgotten + n
    requires forall i :: 0 <= i < forgotten ==> grants[i] + window <= now
    ensures SpreadOut(grants + [now], n, window)
  {
  }

  lemma GrantOrdered(grants: seq<real>, spacings: seq<real>, now: real, spacing: real)
    requires |grants| == |spacings| && Ascending(grants) && KeptSpacing(grants, spacings)
    requires grants != [] ==> now >= grants[|grants| - 1] && now - grants[|grants| - 1] >= spacing
    ensures Ascending(grants + [now]) && KeptSpacing(grants + [now], spacings + [spacing])
  {
  }

  class HistoricalDataPacer {
    const capacity: int
    const window: real
    var minSpacing: real
    var timestamps: seq<real>
    var lastRequest: Option<real>
    var penalty: real
    /** Every grant ever made, and the spacing in force when it was made. */
    ghost var grants: seq<real>
    ghost var spacings: seq<real>
    /** How many grants the deque has forgotten. */
    ghost var forgotten: nat

    ghost predicate Valid(now: real)
      reads this
    {
      && capacity >= 1 && IsPenalty(penalty)
      && forgotten <= |grants| == |spacings| && timestamps == grants[forgotten..]
      && |timestamps| <= capacity
      && (forall i :: 0 <= i < forgotten ==> grants[i] + window <= now)
      && Ascending(grants) && (forall i :: 0 <= i < |grants| ==> grants[i] <= now)
      && SpreadOut(grants, capacity, window)
      && lastRequest == (if grants == [] then None else Some(grants[|grants| - 1]))
      && KeptSpacing(grants, spacings)
    }

    constructor (capacity: int, window: real, minSpacing: real)
      requires capacity >= 1
      ensures grants == [] && penalty == 1.0 && this.minSpacing == minSpacing
      ensures this.capacity == capacity && this.window == window
      ensures forall now :: Valid(now)
    {
      this.capacity, this.window, this.minSpacing := capacity, window, minSpacing;
      timestamps, lastRequest, penalty := [], None, 1.0;
      grants, spacings, forgotten := [], [], 0;
    }

    method Prune(now: real)
      requires Valid(now)
      modifies this`timestamps, this`forgotten
      ensures Valid(now)
      ensures timestamps == [] || timestamps[0] > now - window
    {
      var cutoff := now - window;
      while timestamps != [] && timestamps[0] <= cutoff
        invariant Valid(now)
        decreases |timestamps|
      {
        forgotten := forgotten + 1;
        timestamps := timestamps[1..];
      }
    }

    /** Seconds still to wait at `now`; zero exactly when a grant keeps both limits. */
    method WaitLocked(now: real) returns (wait: real, ghost spacing: real)
      requires Valid(now)
      modifies this`timestamps, this`forgotten
      ensures Valid(now) && (timestamps == [] || timestamps[0] > now - window)
      ensures wait >= 0.0 && spacing == Scaled(minSpacing, penalty)
      ensures lastRequest.Some? ==> wait >= spacing - (now - lastRequest.value)
      ensures |timestamps| == capacity ==> wait >= timestamps[0] + window - now > 0.0
      ensures wait == 0.0 || (lastRequest.Some? && wait == spacing - (now - lastRequest.value))
                          || (|timestamps| == capacity && wait == timestamps[0] + window - now)
    {
      Prune(now);
      wait := 0.0;
      var gap := minSpacing * penalty;
      ScaledIsProduct(minSpacing, penalty);
      spacing := gap;
      if lastRequest.Some? {
        wait := Max(wait, gap - (now - lastRequest.value));
      }
      if |timestamps| >= capacity {
        wait := Max(wait, timestamps[0] + window - now);
      }
      wait := Max(wait, 0.0);
    }

    method RegisterViolation(ghost now: real)
      requires Valid(now)
      modifies this`penalty
      ensures Valid(now)
      ensures old(penalty) <= penalty == Min(old(penalty) * 2.0, 8.0)
    {
      penalty := Min(penalty * 2.0, 8.0);
    }

    /** Sleeping, while any number of violations may be reported. */
    method SleepThroughViolations(wait: real, clock: Clock)
      requires Valid(clock.now)
      modifies this`penalty, clock
      ensures Valid(clock.now) && clock.now >= old(clock.now) && clock.now >= old(clock.now) + wait
      ensures penalty >= old(penalty)
    {
      clock.Sleep(wait);
      ghost var woke := clock.now;
      var violations: int := *;
      while violations > 0
        invariant Valid(clock.now) && clock.now == woke && penalty >= old(penalty)
      {
        RegisterViolation(clock.now);
        violations := violations - 1;
      }
    }

    /** At time `at`, a request at penalty `p` keeps its spacing, and a full window has opened. */
    ghost predicate ReadyBy(p: real, at: real)
      reads this`lastRequest, this`timestamps, this`minSpacing
    {
      && (lastRequest.Some? ==> at - lastRequest.value >= Scaled(minSpacing, p))
      && (|timestamps| >= capacity >= 1 ==> timestamps[0] + window <= at)
    }

    /**
     * One look at the clock: grant the request, or say how long to sleep. A look at or after a time the
     * current penalty is known to be ready by grants it.
     */
    method Look(clock: Clock, ghost ready: Option<(real, real)>) returns (granted: bool, wait: real)
      requires Valid(clock.now)
      requires ready.Some? ==> ReadyBy(ready.value.0, ready.value.1) && ready.value.1 <= clock.now
      modifies this`timestamps, this`forgotten, this`lastRequest, this`grants, this`spacings
      ensures Valid(clock.now)
      ensures ready.Some? && ready.value.0 == penalty ==> granted
      ensures granted ==>
                grants == old(grants) + [clock.now] && spacings == old(spacings) + [Scaled(minSpacing, penalty)]
      ensures !granted ==> grants == old(grants) && spacings == old(spacings)
      ensures !granted ==> wait > 0.0 && ReadyBy(penalty, clock.now + wait)
    {
      ghost var spacing;
      wait, spacing := WaitLocked(clock.now);
      granted := wait <= 0.0;
      if granted {
        Grant(clock.now, spacing);
      }
    }

    /** One pass of the waiting loop: grant, or sleep until the limits known now are kept. */
    method Pass(clock: Clock, ghost ready: Option<(real, real)>)
      returns (granted: bool, ghost next: Option<(real, real)>)
      requires Valid(clock.now)
      requires ready.Some? ==> ReadyBy(ready.value.0, ready.value.1) && ready.value.1 <= clock.now
      modifies this`timestamps, this`forgotten, this`lastRequest, this`penalty, this`grants, this`spacings, clock
      ensures Valid(clock.now) && clock.now >= old(clock.now) && penalty >= old(penalty)
      ensures ready.Some? && ready.value.0 == old(penalty) ==> granted
      ensures granted ==> penalty == old(penalty)
      ensures granted ==>
                grants == old(grants) + [clock.now] && spacings == old(spacings) + [Scaled(minSpacing, penalty)]
      ensures !granted ==> grants == old(grants) && spacings == old(spacings)
      ensures !granted ==> next.Some? && next.value.0 == old(penalty)
      ensures !granted ==> ReadyBy(next.value.0, next.value.1) && next.value.1 <= clock.now
    {
      var wait;
      granted, wait := Look(clock, ready);
      next := None;
      if !granted {
        next := Some((penalty, clock.now + wait));
        SleepThroughViolations(wait, clock);
      }
    }

    /**
     * Grants one request. The number of looks at the clock is at most two, plus one for every time the
     * penalty strictly increased while waiting: so two without violations, and never more than five.
     */
    method Acquire(clock: Clock) returns (checks: nat)
      requires Valid(clock.now)
      modifies this`timestamps, this`forgotten, this`lastRequest, this`penalty, this`grants, this`spacings, clock
      ensures Valid(clock.now) && clock.now >= old(clock.now) && penalty >= old(penalty)
      ensures grants == old(grants) + [clock.now] && spacings == old(spacings) + [Scaled(minSpacing, penalty)]
      ensures checks <= 2 + Headroom(old(penalty)) - Headroom(penalty)
    {
      checks := 0;
      ghost var ready: Option<(real, real)> := None;
      while true
        invariant Valid(clock.now) && clock.now >= old(clock.now) && penalty >= old(penalty)
        invariant grants == old(grants) && spacings == old(spacings)
        invariant checks == 0 <==> ready.None?
        invariant ready.Some? ==> ReadyBy(ready.value.0, ready.value.1) && ready.value.1 <= clock.now
        invariant ready.Some? ==> IsPenalty(ready.value.0) && penalty >= ready.value.0 >= old(penalty)
        invariant ready.Some? ==> checks <= 1 + Headroom(old(penalty)) - Headroom(ready.value.0)
        decreases if ready.None? then 4 else Headroom(ready.value.0)
      {
        checks := checks + 1;
        var granted;
        granted, ready := Pass(clock, ready);
        if granted {
          return;
        }
      }
    }

    /** Records a grant that keeps the spacing and finds room in the window. */
    method Grant(now: real, ghost spacing: real)
      requires Valid(now) && |timestamps| < capacity
      requires lastRequest.Some? ==> now - lastRequest.value >= spacing
      modifies this`timestamps, this`lastRequest, this`grants, this`spacings
      ensures Valid(now) && grants == old(grants) + [now] && spacings == old(spacings) + [spacing]
    {
      GrantSpread(grants, forgotten, capacity, window, now);
      GrantOrdered(grants, spacings, now, spacing);
      timestamps := timestamps + [now];
      lastRequest := Some(now);
      grants, spacings := grants + [now], spacings + [spacing];
    }

    /**
     * Whatever the deque has forgotten, any stretch of time shorter than the window contains at most
     * `capacity` of all the grants ever made, and each grant kept the spacing in force when it was made.
     */
    lemma GrantsPaced(now: real, inside: real -> bool)
      requires Valid(now)
      requires forall x, y :: inside(x) && inside(y) ==> y - x < window
      ensures CountIf(grants, inside) <= capacity
      ensures KeptSpacing(grants, spacings)
    {
      WindowBound(grants, capacity, window, inside);
    }
  }

  // ------------------------------------------------------------------ orders per minute

  /** What is left once the order times of a minute ago and earlier are dropped from the front. */
  function Recent(times: seq<real>, now: real): seq<real> {
    if times != [] && times[0] <= now - 60.0 then Recent(times[1..], now) else times
  }

  lemma {:induction false} CountRest(times: seq<real>, inside: real -> bool)
    requires times != []
    ensures CountIf(times, inside) == CountIf(times[1..], inside) + if inside(times[0]) then 1 else 0
  {
    if |times| == 1 {
      assert times[..0] == [] && times[1..] == [];
    } else {
      CountRest(times[..|times| - 1], inside);
      assert times[..|times| - 1][1..] == times[1..][..|times[1..]| - 1];
    }
  }

  lemma {:induction false} CountAll(times: seq<real>, inside: real -> bool)
    requires forall i :: 0 <= i < |times| ==> inside(times[i])
    ensures CountIf(times, inside) == |times|
  {
    if times == [] {
    } else {
      CountAll(times[..|times| - 1], inside);
    }
  }

  /** What is left is what came within the last minute. */
  lemma {:induction false} RecentCounts(times: seq<real>, now: real)
    requires Ascending(times)
    ensures |Recent(times, now)| == CountIf(times, (t: real) => t > now - 60.0)
  {
    if times == [] || times[0] > now - 60.0 {
      CountAll(times, (t: real) => t > now - 60.0);
    } else {
      CountRest(times, (t: real) => t > now - 60.0);
      RecentCounts(times[1..], now);
    }
  }

  /** The orders-per-minute breaker: the check prunes what it forgets, and a placed order is recorded. */
  class OrderRateBreaker {
    const maxPerMinute: int
    var orderTimes: seq<real>
    /** Every order recorded this session; submits between check and record; and their bound. */
    ghost var recorded: seq<real>
    ghost var forgotten: nat
    ghost var inFlight: nat
    ghost const overlap: nat

    ghost function Limit(): int { maxPerMinute - 1 + overlap }

    /** The orders of the last minute and those still in flight never exceed the limit together. */
    ghost predicate Valid(now: real)
      reads this
    {
      && maxPerMinute >= 1 && inFlight <= overlap
      && forgotten <= |recorded| && orderTimes == recorded[forgotten..]
      && (forall i :: 0 <= i < forgotten ==> recorded[i] + 60.0 <= now)
      && Ascending(recorded) && (forall i :: 0 <= i < |recorded| ==> recorded[i] <= now)
      && (forall i :: 0 <= i < |recorded| + inFlight - Limit() && i < |recorded| ==> recorded[i] + 60.0 <= now)
      && SpreadOut(recorded, Limit(), 60.0)
    }

    constructor (maxPerMinute: int, ghost overlap: nat)
      requires maxPerMinute >= 1 && overlap >= 1
      ensures this.maxPerMinute == maxPerMinute && this.overlap == overlap
      ensures orderTimes == [] && recorded == [] && inFlight == 0
      ensures forall now :: Valid(now)
    {
      this.maxPerMinute, this.overlap := maxPerMinute, overlap;
      orderTimes, recorded, forgotten, inFlight := [], [], 0, 0;
    }

    lemma Later(now: real, later: real)
      requires Valid(now) && now <= later
      ensures Valid(later)
    {
    }

    /** `_check_order_rate`. */
    method Check(now: real) returns (ok: bool)
      requires Valid(now)
      modifies this`orderTimes, this`forgotten
      ensures Valid(now)
      ensures ok <==> |orderTimes| < maxPerMinute
      ensures orderTimes == Recent(old(orderTimes), now)
      ensures forall t :: t in orderTimes ==> t > now - 60.0
      ensures forall t :: t in recorded && t > now - 60.0 ==> t in orderTimes
    {
      while orderTimes != [] && orderTimes[0] <= now - 60.0
        invariant Valid(now) && Recent(orderTimes, now) == Recent(old(orderTimes), now)
        decreases |orderTimes|
      {
        forgotten := forgotten + 1;
        orderTimes := orderTimes[1..];
      }
      forall t | t in orderTimes ensures t > now - 60.0 {
        var i :| 0 <= i < |orderTimes| && orderTimes[i] == t;
        assert recorded[forgotten] <= recorded[forgotten + i];
      }
      ok := |orderTimes| < maxPerMinute;
    }

    /** A submit that passed the check is on its way to the broker. */
    ghost method Enter(now: real)
      requires Valid(now) && |orderTimes| < maxPerMinute && inFlight < overlap
      modifies this`inFlight
      ensures Valid(now) && inFlight == old(inFlight) + 1
    {
      inFlight := inFlight + 1;
    }

    /** `_record_order`, once the placement returned. */
    method Record(now: real)
      requires Valid(now) && inFlight > 0
      modifies this`orderTimes, this`recorded, this`inFlight
      ensures Valid(now) && recorded == old(recorded) + [now] && inFlight == old(inFlight) - 1
      ensures orderTimes == old(orderTimes) + [now]
    {
      orderTimes := orderTimes + [now];
      recorded := recorded + [now];
      inFlight := inFlight - 1;
    }

    /** The placement raised: the submit leaves without being recorded. */
    ghost method Abandon(now: real)
      requires Valid(now) && inFlight > 0
      modifies this`inFlight
      ensures Valid(now) && inFlight == old(inFlight) - 1
    {
      inFlight := inFlight - 1;
    }

    method ResetForNewSession(ghost now: real)
      requires Valid(now)
      modifies this`orderTimes, this`recorded, this`forgotten
      ensures Valid(now) && recorded == [] && orderTimes == []
    {
      orderTimes, recorded, forgotten := [], [], 0;
    }

    /**
     * With at most `overlap` submits between check and record at once, any stretch shorter than a
     * minute holds at most the configured limit plus overlap - 1 recorded orders.
     */
    lemma MinuteBound(now: real, inside: real -> bool)
      requires Valid(now)
      requires forall x, y :: inside(x) && inside(y) ==> y - x < 60.0
      ensures CountIf(recorded, inside) <= maxPerMinute + overlap - 1
    {
      if Limit() >= 0 {
        WindowBound(recorded, Limit(), 60.0, inside);
      }
    }
  }
}
