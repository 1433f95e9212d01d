/** Order references: the derived names that make placement idempotent across restarts. */
module Refs {
  import opened Common

  const PREFIX := "ait"

  datatype Parsed = Parsed(day: string, cycle: string, symbol: string, kind: string)

  /** An empty cycle id is written as "manual". */
  function CycleName(cycle: string): string {
    if cycle == "" then "manual" else cycle
  }

  function MakeRef(day: string, cycle: string, symbol: string, kind: string): string {
    PREFIX + ":" + day + ":" + CycleName(cycle) + ":" + symbol + ":" + kind
  }

  predicate IsOurs(ref: string) {
    PREFIX + ":" <= ref
  }

  predicate ColonFree(s: string) {
    ':' !in s
  }

  /** Index of the first colon, or the length when there is none. */
  function FirstColon(s: string): (n: nat)
    ensures n <= |s| && ColonFree(s[..n]) && (n < |s| ==> s[n] == ':')
  {
    if s == "" || s[0] == ':' then 0
    else
      var n := 1 + FirstColon(s[1..]);
      assert s[..n] == [s[0]] + s[1..][..n - 1];
      n
  }

  /** Python's `s.split(":")`. */
  function Split(s: string): (parts: seq<string>)
    ensures |parts| > 0
    decreases |s|
  {
    var n := FirstColon(s);
    if n == |s| then [s] else [s[..n]] + Split(s[n + 1..])
  }

  function ParseRef(ref: string): Option<Parsed> {
    var parts := Split(ref);
    if |parts| != 5 || parts[0] != PREFIX then None
    else Some(Parsed(parts[1], parts[2], parts[3], parts[4]))
  }

  /** Python's `":".join(parts)`. */
  function Join(parts: seq<string>): string
    requires parts != []
  {
    if |parts| == 1 then parts[0] else parts[0] + ":" + Join(parts[1..])
  }

  lemma {:induction false} SplitLast(a: string)
    requires ColonFree(a)
    ensures Split(a) == [a]
  {
    assert FirstColon(a) == |a|;
  }

  lemma FirstColonOf(a: string, rest: string)
    requires ColonFree(a)
    ensures FirstColon(a + ":" + rest) == |a|
  {
    var s := a + ":" + rest;
    var n := FirstColon(s);
    assert s[|a|] == ':';
    assert forall i :: 0 <= i < |a| ==> s[i] == a[i];
    assert forall i :: 0 <= i < n ==> s[i] == s[..n][i];
  }

  lemma SplitField(a: string, rest: string)
    requires ColonFree(a)
    ensures Split(a + ":" + rest) == [a] + Split(rest)
  {
    var s := a + ":" + rest;
    FirstColonOf(a, rest);
    assert s[..|a|] == a && s[|a| + 1..] == rest;
  }

  lemma {:induction false} SplitOfJoin(parts: seq<string>)
    requires parts != [] && forall p :: p in parts ==> ColonFree(p)
    ensures Split(Join(parts)) == parts
  {
    if |parts| == 1 {
      SplitLast(parts[0]);
    } else {
      SplitOfJoin(parts[1..]);
      SplitField(parts[0], Join(parts[1..]));
    }
  }

  lemma {:induction false} JoinOfSplit(s: string)
    ensures Join(Split(s)) == s
    ensures forall p :: p in Split(s) ==> ColonFree(p)
    decreases |s|
  {
    var n := FirstColon(s);
    if n < |s| {
      JoinOfSplit(s[n + 1..]);
      assert s == s[..n] + ":" + s[n + 1..];
      assert Split(s)[1..] == Split(s[n + 1..]);
    } else {
      assert s[..n] == s;
    }
  }

  lemma MakeRefIsJoin(day: string, cycle: string, symbol: string, kind: string)
    ensures MakeRef(day, cycle, symbol, kind) == Join([PREFIX, day, CycleName(cycle), symbol, kind])
  {
    var c := CycleName(cycle);
    var parts := [PREFIX, day, c, symbol, kind];
    assert parts[1..] == [day, c, symbol, kind];
    assert [day, c, symbol, kind][1..] == [c, symbol, kind];
    assert [c, symbol, kind][1..] == [symbol, kind];
    assert [symbol, kind][1..] == [kind];
    calc {
      Join(parts);
      PREFIX + ":" + Join([day, c, symbol, kind]);
      PREFIX + ":" + (day + ":" + Join([c, symbol, kind]));
      PREFIX + ":" + (day + ":" + (c + ":" + Join([symbol, kind])));
      PREFIX + ":" + (day + ":" + (c + ":" + (symbol + ":" + kind)));
      MakeRef(day, cycle, symbol, kind);
    }
  }

  lemma CycleNameColonFree(cycle: string)
    ensures ColonFree(CycleName(cycle)) <==> ColonFree(cycle)
  {
    assert ColonFree("manual");
  }

  function Colons(s: string): nat {
    if s == "" then 0 else (if s[0] == ':' then 1 else 0) + Colons(s[1..])
  }

  lemma {:induction false} ColonsConcat(a: string, b: string)
    ensures Colons(a + b) == Colons(a) + Colons(b)
  {
    if a == "" {
      assert a + b == b;
    } else {
      assert (a + b)[1..] == a[1..] + b;
      ColonsConcat(a[1..], b);
    }
  }

  lemma {:induction false} ColonsZero(s: string)
    ensures Colons(s) == 0 <==> ColonFree(s)
  {
    if s == "" {
    } else {
      ColonsZero(s[1..]);
    }
  }

  lemma {:induction false} SplitCount(s: string)
    ensures |Split(s)| == 1 + Colons(s)
    decreases |s|
  {
    var n := FirstColon(s);
    ColonsZero(s[..n]);
    if n == |s| {
      assert s[..n] == s;
    } else {
      SplitCount(s[n + 1..]);
      assert s == s[..n] + (":" + s[n + 1..]);
      assert (":" + s[n + 1..])[1..] == s[n + 1..];
      ColonsConcat(s[..n], ":" + s[n + 1..]);
    }
  }

  /** Joining adds one separator between fields and keeps every colon the fields bring along. */
  lemma {:induction false} JoinCount(parts: seq<string>)
    requires parts != []
    ensures Colons(Join(parts)) >= |parts| - 1
    ensures Colons(Join(parts)) == |parts| - 1 <==> forall p :: p in parts ==> ColonFree(p)
  {
    ColonsZero(parts[0]);
    if |parts| == 1 {
    } else {
      var rest := Join(parts[1..]);
      JoinCount(parts[1..]);
      assert parts == [parts[0]] + parts[1..];
      assert parts[0] + ":" + rest == parts[0] + (":" + rest);
      assert (":" + rest)[1..] == rest;
      ColonsConcat(parts[0], ":" + rest);
    }
  }

  /** Parsing undoes making exactly when no field contains a colon; with one, parsing refuses the ref. */
  lemma ParseMake(day: string, cycle: string, symbol: string, kind: string)
    ensures ParseRef(MakeRef(day, cycle, symbol, kind)) ==
            if ColonFree(day) && ColonFree(cycle) && ColonFree(symbol) && ColonFree(kind)
            then Some(Parsed(day, CycleName(cycle), symbol, kind))
            else None
  {
    var parts := [PREFIX, day, CycleName(cycle), symbol, kind];
    MakeRefIsJoin(day, cycle, symbol, kind);
    CycleNameColonFree(cycle);
    if ColonFree(day) && ColonFree(cycle) && ColonFree(symbol) && ColonFree(kind) {
      SplitOfJoin(parts);
    } else {
      assert exists p :: p in parts && !ColonFree(p) by {
        assert parts[1] in parts && parts[2] in parts && parts[3] in parts && parts[4] in parts;
      }
      JoinCount(parts);
      SplitCount(Join(parts));
    }
  }

  /**
   * Two logical orders get the same ref only when they are the same logical order: for colon-free
   * fields the ref is injective up to the spelling of the empty cycle id.
   */
  lemma MakeRefInjective(d: string, c: string, s: string, k: string, d': string, c': string, s': string, k': string)
    requires ColonFree(d) && ColonFree(c) && ColonFree(s) && ColonFree(k)
    requires ColonFree(d') && ColonFree(c') && ColonFree(s') && ColonFree(k')
    ensures MakeRef(d, c, s, k) == MakeRef(d', c', s', k')
       <==> d == d' && CycleName(c) == CycleName(c') && s == s' && k == k'
  {
    ParseMake(d, c, s, k);
    ParseMake(d', c', s', k');
    if d == d' && CycleName(c) == CycleName(c') && s == s' && k == k' {
      MakeRefIsJoin(d, c, s, k);
      MakeRefIsJoin(d', c', s', k');
    }
  }

  /** Making again what was parsed gives the ref back exactly when its cycle field is not empty. */
  lemma MakeParse(ref: string)
    requires ParseRef(ref).Some?
    ensures var p := ParseRef(ref).value;
            MakeRef(p.day, p.cycle, p.symbol, p.kind) == ref <==> p.cycle != ""
  {
    var p := ParseRef(ref).value;
    JoinOfSplit(ref);
    MakeRefIsJoin(p.day, p.cycle, p.symbol, p.kind);
    assert Split(ref) == [PREFIX, p.day, p.cycle, p.symbol, p.kind];
    if p.cycle == "" {
      ParseMake(p.day, p.cycle, p.symbol, p.kind);
      var parts := Split(ref);
      assert parts[1] in parts && parts[3] in parts && parts[4] in parts;
      assert ColonFree(p.day) && ColonFree(p.symbol) && ColonFree(p.kind);
    }
  }

  lemma MakeRefOurs(day: string, cycle: string, symbol: string, kind: string)
    ensures IsOurs(MakeRef(day, cycle, symbol, kind))
  {
    assert MakeRef(day, cycle, symbol, kind)[..|PREFIX + ":"|] == PREFIX + ":";
  }
}
