/** Shared vocabulary: optional values, Python-style rounding, filters and stable sorting. */
module Common {
  datatype Option<+T> = None | Some(value: T)

  function Lookup<K, V>(m: map<K, V>, k: K): Option<V> {
    if k in m then Some(m[k]) else None
  }

  function Abs(x: real): real { if x < 0.0 then -x else x }

  function Max(x: real, y: real): real { if x >= y then x else y }

  function Min(x: real, y: real): real { if x <= y then x else y }

  /** Python's `round`: to the nearest integer, a tie going to the even one. */
  function RoundHalfEven(x: real): (n: int)
    ensures -0.5 <= n as real - x <= 0.5
    ensures n as real - x == 0.5 || n as real - x == -0.5 ==> n % 2 == 0
  {
    var f := x.Floor;
    var rest := x - f as real;
    if rest < 0.5 then f
    else if rest > 0.5 then f + 1
    else if f % 2 == 0 then f else f + 1
  }

  /** Python's `round(x, 2)`. */
  function RoundCents(x: real): real {
    RoundHalfEven(x * 100.0) as real / 100.0
  }

  function Filter<T(!new)>(keep: T -> bool, xs: seq<T>): (ys: seq<T>)
    ensures forall x :: x in ys <==> x in xs && keep(x)
    ensures |ys| <= |xs|
  {
    if xs == [] then []
    else if keep(xs[0]) then [xs[0]] + Filter(keep, xs[1..])
    else Filter(keep, xs[1..])
  }

  ghost predicate Distinct<T>(xs: seq<T>) {
    forall i, j :: 0 <= i < j < |xs| ==> xs[i] != xs[j]
  }

  lemma {:induction false} FilterConcat<T(!new)>(keep: T -> bool, xs: seq<T>, ys: seq<T>)
    ensures Filter(keep, xs + ys) == Filter(keep, xs) + Filter(keep, ys)
  {
    if xs == [] {
      assert xs + ys == ys;
    } else {
      assert (xs + ys)[1..] == xs[1..] + ys;
      FilterConcat(keep, xs[1..], ys);
    }
  }

  lemma {:induction false} FilterDistinct<T(!new)>(keep: T -> bool, xs: seq<T>)
    requires Distinct(xs)
    ensures Distinct(Filter(keep, xs))
  {
    if xs == [] {
    } else {
      FilterDistinct(keep, xs[1..]);
      assert xs[0] !in xs[1..];
    }
  }

  lemma {:induction false} FilterAll<T(!new)>(keep: T -> bool, xs: seq<T>)
    requires forall x :: x in xs ==> keep(x)
    ensures Filter(keep, xs) == xs
  {
    if xs == [] {
    } else {
      FilterAll(keep, xs[1..]);
    }
  }

  lemma {:induction false} FilterNone<T(!new)>(keep: T -> bool, xs: seq<T>)
    requires forall x :: x in xs ==> !keep(x)
    ensures Filter(keep, xs) == []
  {
    if xs == [] {
    } else {
      FilterNone(keep, xs[1..]);
    }
  }

  lemma {:induction false} FilterLast<T(!new)>(keep: T -> bool, xs: seq<T>, n: nat)
    requires n < |xs|
    ensures Filter(keep, xs[..n + 1]) == Filter(keep, xs[..n]) + if keep(xs[n]) then [xs[n]] else []
  {
    assert xs[..n + 1] == xs[..n] + [xs[n]];
    FilterConcat(keep, xs[..n], [xs[n]]);
  }
}

/** Python's `sorted(xs, key=…)`: a stable sort, written as the insertion sort it agrees with. */
module Sorting {
  import opened Common

  function InsertBy<T>(x: T, xs: seq<T>, key: T -> real): seq<T> {
    if xs == [] || key(x) <= key(xs[0]) then [x] + xs
    else [xs[0]] + InsertBy(x, xs[1..], key)
  }

  function SortBy<T>(xs: seq<T>, key: T -> real): seq<T> {
    if xs == [] then [] else InsertBy(xs[0], SortBy(xs[1..], key), key)
  }

  ghost predicate SortedBy<T>(xs: seq<T>, key: T -> real) {
    forall i, j :: 0 <= i < j < |xs| ==> key(xs[i]) <= key(xs[j])
  }

  lemma {:induction false} InsertKeeps<T(!new)>(x: T, xs: seq<T>, key: T -> real)
    ensures multiset(InsertBy(x, xs, key)) == multiset{x} + multiset(xs)
    ensures forall y :: y in InsertBy(x, xs, key) <==> y == x || y in xs
  {
    if xs == [] || key(x) <= key(xs[0]) {
    } else {
      InsertKeeps(x, xs[1..], key);
      assert xs == [xs[0]] + xs[1..];
    }
  }

  lemma {:induction false} InsertSorted<T(!new)>(x: T, xs: seq<T>, key: T -> real)
    requires SortedBy(xs, key)
    ensures SortedBy(InsertBy(x, xs, key), key)
  {
    if xs == [] || key(x) <= key(xs[0]) {
    } else {
      InsertSorted(x, xs[1..], key);
      InsertKeeps(x, xs[1..], key);
      var rest := InsertBy(x, xs[1..], key);
      forall j | 0 <= j < |rest| ensures key(xs[0]) <= key(rest[j]) {
        assert rest[j] in rest;
      }
    }
  }

  lemma {:induction false} SortOrders<T(!new)>(xs: seq<T>, key: T -> real)
    ensures SortedBy(SortBy(xs, key), key)
  {
    if xs == [] {
    } else {
      SortOrders(xs[1..], key);
      InsertSorted(xs[0], SortBy(xs[1..], key), key);
    }
  }

  lemma {:induction false} SortKeeps<T(!new)>(xs: seq<T>, key: T -> real)
    ensures multiset(SortBy(xs, key)) == multiset(xs)
  {
    if xs == [] {
    } else {
      SortKeeps(xs[1..], key);
      InsertKeeps(xs[0], SortBy(xs[1..], key), key);
      assert xs == [xs[0]] + xs[1..];
    }
  }

  lemma SameElements<T>(xs: seq<T>, ys: seq<T>)
    requires multiset(xs) == multiset(ys)
    ensures |xs| == |ys| && forall x :: x in ys <==> x in xs
  {
    assert |multiset(xs)| == |multiset(ys)|;
    forall x ensures x in ys <==> x in xs {
      assert x in ys <==> x in multiset(ys);
      assert x in xs <==> x in multiset(xs);
    }
  }

  /** Sorting orders the list and keeps exactly its elements. */
  lemma SortFacts<T(!new)>(xs: seq<T>, key: T -> real)
    ensures SortedBy(SortBy(xs, key), key)
    ensures multiset(SortBy(xs, key)) == multiset(xs)
    ensures |SortBy(xs, key)| == |xs|
    ensures forall x :: x in SortBy(xs, key) <==> x in xs
  {
    SortOrders(xs, key);
    SortKeeps(xs, key);
    SameElements(xs, SortBy(xs, key));
  }

  lemma SortDistinct<T(!new)>(xs: seq<T>, key: T -> real)
    requires Distinct(xs)
    ensures Distinct(SortBy(xs, key))
  {
    SortFacts(xs, key);
    DistinctIffSingle(xs);
    DistinctIffSingle(SortBy(xs, key));
  }

  lemma {:induction false} DistinctIffSingle<T(!new)>(xs: seq<T>)
    ensures Distinct(xs) <==> forall x :: multiset(xs)[x] <= 1
  {
    if xs == [] {
    } else {
      var rest := xs[1..];
      DistinctIffSingle(rest);
      assert xs == [xs[0]] + rest;
      assert forall x :: multiset(xs)[x] == multiset(rest)[x] + if x == xs[0] then 1 else 0;
      if Distinct(xs) {
        assert forall i, j :: 0 <= i < j < |rest| ==> rest[i] == xs[i + 1] && rest[j] == xs[j + 1];
        assert xs[0] !in rest;
        assert multiset(rest)[xs[0]] == 0;
      } else if Distinct(rest) {
        var i, j :| 0 <= i < j < |xs| && xs[i] == xs[j];
        assert rest[j - 1] == xs[j];
        assert i == 0;
        assert xs[0] in multiset(rest);
      }
    }
  }

  lemma {:induction false} InsertFilter<T(!new)>(x: T, xs: seq<T>, key: T -> real, keep: T -> bool)
    requires SortedBy(xs, key)
    ensures Filter(keep, InsertBy(x, xs, key))
         == if keep(x) then InsertBy(x, Filter(keep, xs), key) else Filter(keep, xs)
  {
    if xs == [] || key(x) <= key(xs[0]) {
      assert ([x] + xs)[1..] == xs;
      var ys := Filter(keep, xs);
      if ys != [] {
        assert ys[0] in ys;
        var i :| 0 <= i < |xs| && xs[i] == ys[0];
        assert key(xs[0]) <= key(xs[i]);
      }
    } else {
      InsertFilter(x, xs[1..], key, keep);
      var rest := InsertBy(x, xs[1..], key);
      assert ([xs[0]] + rest)[1..] == rest;
    }
  }

  /** Stability: filtering commutes with sorting, so equal keys keep the order they came in. */
  lemma {:induction false} SortFilter<T(!new)>(xs: seq<T>, key: T -> real, keep: T -> bool)
    ensures Filter(keep, SortBy(xs, key)) == SortBy(Filter(keep, xs), key)
  {
    if xs == [] {
    } else {
      SortFilter(xs[1..], key, keep);
      SortFacts(xs[1..], key);
      InsertFilter(xs[0], SortBy(xs[1..], key), key, keep);
    }
  }

  lemma {:induction false} SortSorted<T(!new)>(xs: seq<T>, key: T -> real)
    requires SortedBy(xs, key)
    ensures SortBy(xs, key) == xs
  {
    if xs == [] {
    } else {
      SortSorted(xs[1..], key);
      assert xs == [xs[0]] + xs[1..];
    }
  }
}
