/** Finding the first balanced JSON object in free text, ignoring braces inside strings. */
module JsonScan {
  import opened Common

  // ------------------------------------------------------------------ the scan

  /** Where a scan stands: open braces, inside a string or not, and just after a backslash or not. */
  datatype Scan = Scan(depth: int, inString: bool, escaped: bool)

  /** The state after one more character. */
  function Step(s: Scan, c: char): Scan {
    if s.escaped then s.(escaped := false)
    else if c == '\\' then s.(escaped := true)
    else if c == '"' then s.(inString := !s.inString)
    else if s.inString then s
    else if c == '{' then s.(depth := s.depth + 1)
    else if c == '}' then s.(depth := s.depth - 1)
    else s
  }

  function Run(s: Scan, text: string): Scan {
    if text == "" then s else Step(Run(s, text[..|text| - 1]), text[|text| - 1])
  }

  const START := Scan(0, false, false)

  /** The character at `e` is a closing brace outside strings that brings the scan from `start` back to depth zero. */
  predicate ClosesAt(text: string, start: nat, e: nat)
    requires start <= e < |text|
  {
    text[e] == '}' && Run(START, text[start..e]) == Scan(1, false, false)
  }

  /** The scan from `start` closes, first of all at `e`. */
  ghost predicate FirstClose(text: string, start: nat, e: nat) {
    && start <= e < |text| && ClosesAt(text, start, e)
    && forall k :: start <= k < e ==> !ClosesAt(text, start, k)
  }

  ghost predicate Closes(text: string, start: nat) {
    exists e :: start <= e < |text| && ClosesAt(text, start, e)
  }

  /** Python's `text.find("{", from)`. */
  method FindBrace(text: string, from: nat) returns (i: int)
    ensures i == -1 || (from <= i < |text| && text[i] == '{')
    ensures forall k :: from <= k < (if i == -1 then |text| else i) ==> text[k] != '{'
  {
    var j := from;
    while j < |text|
      invariant from <= j
      invariant forall k :: from <= k < j && k < |text| ==> text[k] != '{'
    {
      if text[j] == '{' {
        return j;
      }
      j := j + 1;
    }
    return -1;
  }

  /** The earliest opening brace whose scan closes is at `i`, and its first closing point is at `e`. */
  ghost predicate IsFirstObject(text: string, i: int, e: int) {
    && 0 <= i < |text| && text[i] == '{' && 0 <= e && FirstClose(text, i, e)
    && forall k :: 0 <= k < i && text[k] == '{' ==> !Closes(text, k)
  }

  /** What the scanner answers: that object's text, and nothing exactly when no opening brace closes. */
  ghost predicate Finds(text: string, found: Option<string>) {
    && (found.None? <==> forall i :: 0 <= i < |text| && text[i] == '{' ==> !Closes(text, i))
    && (found.Some? ==> exists i, e :: IsFirstObject(text, i, e) && found.value == text[i..e + 1])
  }

  /**
   * Returns the text from the earliest opening brace whose scan closes to its first closing point, and
   * nothing exactly when no opening brace closes.
   */
  method FindBalancedJson(text: string) returns (found: Option<string>)
    ensures Finds(text, found)
  {
    var start := FindBrace(text, 0);
    while start != -1
      invariant start == -1 || (0 <= start < |text| && text[start] == '{')
      invariant forall k :: 0 <= k < (if start == -1 then |text| else start) && text[k] == '{' ==> !Closes(text, k)
      decreases if start == -1 then 0 else |text| - start
    {
      var depth, inString, escaped := 0, false, false;
      var i := start;
      while i < |text|
        invariant start <= i <= |text|
        invariant Run(START, text[start..i]) == Scan(depth, inString, escaped)
        invariant forall k :: start <= k < i ==> !ClosesAt(text, start, k)
      {
        assert text[start..i + 1][..i - start] == text[start..i];
        var ch := text[i];
        if escaped {
          escaped := false;
        } else if ch == '\\' {
          escaped := true;
        } else if ch == '"' {
          inString := !inString;
        } else if inString {
        } else if ch == '{' {
          depth := depth + 1;
        } else if ch == '}' {
          depth := depth - 1;
          if depth == 0 {
            assert IsFirstObject(text, start, i) && Closes(text, start);
            return Some(text[start..i + 1]);
          }
        }
        i := i + 1;
      }
      start := FindBrace(text, start + 1);
    }
    return None;
  }

  // ------------------------------------------------------------------ printed JSON

  predicate IsSpace(c: char) { c == ' ' || c == '\t' || c == '\n' || c == '\r' }

  predicate IsHex(c: char) {
    '0' <= c <= '9' || 'a' <= c <= 'f' || 'A' <= c <= 'F'
  }

  /** One character of a string, as section 7 of RFC 8259 writes it. */
  datatype Char = Plain(c: char) | Escape(c: char) | Hex(a: char, b: char, c: char, d: char)

  predicate ValidChar(ch: Char) {
    match ch
    case Plain(c) => c >= ' ' && c != '"' && c != '\\'
    case Escape(c) => c in {'"', '\\', '/', 'b', 'f', 'n', 'r', 't'}
    case Hex(a, b, c, d) => IsHex(a) && IsHex(b) && IsHex(c) && IsHex(d)
  }

  function PrintChar(ch: Char): string {
    match ch
    case Plain(c) => [c]
    case Escape(c) => ['\\', c]
    case Hex(a, b, c, d) => ['\\', 'u', a, b, c, d]
  }

  function PrintChars(cs: seq<Char>): string {
    if cs == [] then "" else PrintChar(cs[0]) + PrintChars(cs[1..])
  }

  function Quote(cs: seq<Char>): string {
    "\"" + PrintChars(cs) + "\""
  }

  /** A JSON value together with the whitespace its text puts around each token. */
  datatype Value =
    | Word(text: string)                 // true, false, null and numbers
    | Text(chars: seq<Char>)
    | Array(space: string, items: Items)
    | Object(space: string, members: Members)

  datatype Items = NoItems | Item(before: string, value: Value, after: string, rest: Items)

  datatype Members =
    | NoMembers
    | Member(before: string, key: seq<Char>, gap: string, before': string, value: Value, after: string, rest: Members)

  function Print(v: Value): string
    decreases v
  {
    match v
    case Word(text) => text
    case Text(chars) => Quote(chars)
    case Array(space, items) => "[" + space + PrintItems(items) + "]"
    case Object(space, members) => "{" + space + PrintMembers(members) + "}"
  }

  function PrintItems(items: Items): string
    decreases items
  {
    match items
    case NoItems => ""
    case Item(before, value, after, rest) =>
      before + Print(value) + after + (if rest.NoItems? then "" else "," + PrintItems(rest))
  }

  function PrintMembers(members: Members): string
    decreases members
  {
    match members
    case NoMembers => ""
    case Member(before, key, gap, before', value, after, rest) =>
      before + Quote(key) + gap + ":" + before' + Print(value) + after
      + (if rest.NoMembers? then "" else "," + PrintMembers(rest))
  }

  predicate Spaces(s: string) { forall i :: 0 <= i < |s| ==> IsSpace(s[i]) }

  /** Literals and numbers are written with letters, digits, signs and a point. */
  predicate IsWordChar(c: char) {
    'a' <= c <= 'z' || '0' <= c <= '9' || c == 'E' || c == '+' || c == '-' || c == '.'
  }

  predicate ValidChars(cs: seq<Char>) { forall i :: 0 <= i < |cs| ==> ValidChar(cs[i]) }

  predicate ValidValue(v: Value)
    decreases v
  {
    match v
    case Word(text) => forall i :: 0 <= i < |text| ==> IsWordChar(text[i])
    case Text(chars) => ValidChars(chars)
    case Array(space, items) => Spaces(space) && ValidItems(items)
    case Object(space, members) => Spaces(space) && ValidMembers(members)
  }

  predicate ValidItems(items: Items)
    decreases items
  {
    match items
    case NoItems => true
    case Item(before, value, after, rest) => Spaces(before) && ValidValue(value) && Spaces(after) && ValidItems(rest)
  }

  predicate ValidMembers(members: Members)
    decreases members
  {
    match members
    case NoMembers => true
    case Member(before, key, gap, before', value, after, rest) =>
      && Spaces(before) && ValidChars(key) && Spaces(gap) && Spaces(before')
      && ValidValue(value) && Spaces(after) && ValidMembers(rest)
  }

  // ------------------------------------------------------------------ scanning printed text

  /** Scanning `text` from `s` ends in `t`, and on the way the depth never falls below `floor`. */
  ghost predicate Passes(s: Scan, text: string, t: Scan, floor: int) {
    && Run(s, text) == t
    && forall k :: 0 <= k <= |text| ==> Run(s, text[..k]).depth >= floor
  }

  lemma {:induction false} RunConcat(s: Scan, a: string, b: string)
    ensures Run(s, a + b) == Run(Run(s, a), b)
  {
    if b == "" {
      assert a + b == a;
    } else {
      assert (a + b)[..|a + b| - 1] == a + b[..|b| - 1];
      RunConcat(s, a, b[..|b| - 1]);
    }
  }

  lemma PassesConcat(s: Scan, a: string, t: Scan, b: string, u: Scan, floor: int)
    requires Passes(s, a, t, floor) && Passes(t, b, u, floor)
    ensures Passes(s, a + b, u, floor)
  {
    RunConcat(s, a, b);
    forall k | 0 <= k <= |a + b| ensures Run(s, (a + b)[..k]).depth >= floor {
      if k <= |a| {
        assert (a + b)[..k] == a[..k];
      } else {
        assert (a + b)[..k] == a + b[..k - |a|];
        RunConcat(s, a, b[..k - |a|]);
      }
    }
  }

  lemma PassesOne(s: Scan, c: char, floor: int)
    requires s.depth >= floor && Step(s, c).depth >= floor
    ensures Passes(s, [c], Step(s, c), floor)
  {
    assert [c][..0] == "" && [c][..1] == [c];
    forall k | 0 <= k <= 1 ensures Run(s, [c][..k]).depth >= floor {
      if k == 0 { assert [c][..k] == ""; } else { assert [c][..k] == [c]; }
    }
  }

  /** Characters that mean nothing outside a string. */
  predicate Inert(c: char) {
    c != '\\' && c != '"' && c != '{' && c != '}'
  }

  lemma {:induction false} PassesInert(depth: int, text: string)
    requires forall i :: 0 <= i < |text| ==> Inert(text[i])
    ensures Passes(Scan(depth, false, false), text, Scan(depth, false, false), depth)
  {
    var s := Scan(depth, false, false);
    if text == "" {
    } else {
      var n := |text| - 1;
      PassesInert(depth, text[..n]);
      PassesOne(s, text[n], depth);
      PassesConcat(s, text[..n], s, [text[n]], s, depth);
      assert text == text[..n] + [text[n]];
    }
  }

  lemma PassesTwo(s: Scan, a: char, b: char, floor: int)
    requires s.depth >= floor && Step(s, a).depth >= floor && Step(Step(s, a), b).depth >= floor
    ensures Passes(s, [a, b], Step(Step(s, a), b), floor)
  {
    PassesOne(s, a, floor);
    PassesOne(Step(s, a), b, floor);
    PassesConcat(s, [a], Step(s, a), [b], Step(Step(s, a), b), floor);
    assert [a] + [b] == [a, b];
  }

  lemma PassesChar(depth: int, ch: Char)
    requires ValidChar(ch)
    ensures Passes(Scan(depth, true, false), PrintChar(ch), Scan(depth, true, false), depth)
  {
    var s := Scan(depth, true, false);
    match ch
    case Plain(c) => PassesOne(s, c, depth);
    case Escape(c) => PassesTwo(s, '\\', c, depth);
    case Hex(a, b, c, d) =>
      PassesTwo(s, '\\', 'u', depth);
      PassesTwo(s, a, b, depth);
      PassesTwo(s, c, d, depth);
      PassesConcat(s, [a, b], s, [c, d], s, depth);
      PassesConcat(s, ['\\', 'u'], s, [a, b] + [c, d], s, depth);
      assert PrintChar(ch) == ['\\', 'u'] + ([a, b] + [c, d]);
  }

  lemma {:induction false} PassesChars(depth: int, cs: seq<Char>)
    requires ValidChars(cs)
    ensures Passes(Scan(depth, true, false), PrintChars(cs), Scan(depth, true, false), depth)
  {
    var s := Scan(depth, true, false);
    if cs == [] {
    } else {
      PassesChar(depth, cs[0]);
      PassesChars(depth, cs[1..]);
      PassesConcat(s, PrintChar(cs[0]), s, PrintChars(cs[1..]), s, depth);
    }
  }

  lemma PassesQuote(depth: int, cs: seq<Char>)
    requires ValidChars(cs)
    ensures Passes(Scan(depth, false, false), Quote(cs), Scan(depth, false, false), depth)
  {
    var s, q := Scan(depth, false, false), Scan(depth, true, false);
    PassesOne(s, '"', depth);
    PassesChars(depth, cs);
    PassesOne(q, '"', depth);
    PassesConcat(s, "\"", q, PrintChars(cs), q, depth);
    PassesConcat(s, "\"" + PrintChars(cs), q, "\"", s, depth);
  }

  lemma WeakerFloor(s: Scan, text: string, t: Scan, floor: int, lower: int)
    requires Passes(s, text, t, floor) && lower <= floor
    ensures Passes(s, text, t, lower)
  {
  }

  lemma PassesBraces(depth: int, body: string)
    requires Passes(Scan(depth + 1, false, false), body, Scan(depth + 1, false, false), depth + 1)
    ensures Passes(Scan(depth, false, false), "{" + body + "}", Scan(depth, false, false), depth)
  {
    var s, t := Scan(depth, false, false), Scan(depth + 1, false, false);
    PassesOne(s, '{', depth);
    WeakerFloor(t, body, t, depth + 1, depth);
    PassesOne(t, '}', depth);
    PassesConcat(s, "{", t, body, t, depth);
    PassesConcat(s, "{" + body, t, "}", s, depth);
  }

  lemma PassesBrackets(depth: int, space: string, body: string)
    requires Spaces(space) && Passes(Scan(depth, false, false), body, Scan(depth, false, false), depth)
    ensures Passes(Scan(depth, false, false), "[" + space + body + "]", Scan(depth, false, false), depth)
  {
    var s := Scan(depth, false, false);
    PassesInert(depth, "[" + space);
    PassesInert(depth, "]");
    PassesConcat(s, "[" + space, s, body, s, depth);
    PassesConcat(s, "[" + space + body, s, "]", s, depth);
  }

  /** A printed value leaves the scan where it was, and never closes what was open before it. */
  lemma {:induction false} PassesValue(depth: int, v: Value)
    requires ValidValue(v)
    ensures Passes(Scan(depth, false, false), Print(v), Scan(depth, false, false), depth)
    decreases v
  {
    match v
    case Word(text) => PassesInert(depth, text);
    case Text(chars) => PassesQuote(depth, chars);
    case Array(space, items) =>
      PassesItems(depth, items);
      PassesBrackets(depth, space, PrintItems(items));
    case Object(space, members) =>
      PassesBody(depth + 1, space, members);
      PassesBraces(depth, space + PrintMembers(members));
      assert "{" + space + PrintMembers(members) + "}" == "{" + (space + PrintMembers(members)) + "}";
  }

  lemma {:induction false} PassesBody(depth: int, space: string, members: Members)
    requires Spaces(space) && ValidMembers(members)
    ensures Passes(Scan(depth, false, false), space + PrintMembers(members), Scan(depth, false, false), depth)
    decreases members, 1
  {
    var s := Scan(depth, false, false);
    PassesInert(depth, space);
    PassesMembers(depth, members);
    PassesConcat(s, space, s, PrintMembers(members), s, depth);
  }

  lemma {:induction false} PassesItems(depth: int, items: Items)
    requires ValidItems(items)
    ensures Passes(Scan(depth, false, false), PrintItems(items), Scan(depth, false, false), depth)
    decreases items
  {
    var s := Scan(depth, false, false);
    match items
    case NoItems => PassesInert(depth, "");
    case Item(before, value, after, rest) =>
      PassesInert(depth, before);
      PassesValue(depth, value);
      PassesInert(depth, after);
      PassesConcat(s, before, s, Print(value), s, depth);
      PassesConcat(s, before + Print(value), s, after, s, depth);
      PassesItems(depth, rest);
      PassesInert(depth, ",");
      PassesConcat(s, ",", s, PrintItems(rest), s, depth);
      var tail := if rest.NoItems? then "" else "," + PrintItems(rest);
      PassesInert(depth, "");
      PassesConcat(s, before + Print(value) + after, s, tail, s, depth);
  }

  lemma {:induction false} PassesMembers(depth: int, members: Members)
    requires ValidMembers(members)
    ensures Passes(Scan(depth, false, false), PrintMembers(members), Scan(depth, false, false), depth)
    decreases members, 0
  {
    var s := Scan(depth, false, false);
    match members
    case NoMembers => PassesInert(depth, "");
    case Member(before, key, gap, before', value, after, rest) =>
      PassesInert(depth, before);
      PassesQuote(depth, key);
      PassesConcat(s, before, s, Quote(key), s, depth);
      PassesInert(depth, gap);
      PassesConcat(s, before + Quote(key), s, gap, s, depth);
      PassesInert(depth, ":");
      PassesConcat(s, before + Quote(key) + gap, s, ":", s, depth);
      PassesInert(depth, before');
      PassesConcat(s, before + Quote(key) + gap + ":", s, before', s, depth);
      PassesValue(depth, value);
      PassesConcat(s, before + Quote(key) + gap + ":" + before', s, Print(value), s, depth);
      PassesInert(depth, after);
      PassesConcat(s, before + Quote(key) + gap + ":" + before' + Print(value), s, after, s, depth);
      PassesMembers(depth, rest);
      PassesInert(depth, ",");
      PassesConcat(s, ",", s, PrintMembers(rest), s, depth);
      var tail := if rest.NoMembers? then "" else "," + PrintMembers(rest);
      PassesInert(depth, "");
      PassesConcat(s, before + Quote(key) + gap + ":" + before' + Print(value) + after, s, tail, s, depth);
  }

  lemma RunOpened(body: string)
    ensures Run(START, "{" + body) == Run(Scan(1, false, false), body)
  {
    RunConcat(START, "{", body);
    assert "{"[..0] == "";
  }

  /** A text that never falls below depth one has no closing point inside it. */
  lemma StaysOpen(body: string, j: nat)
    requires Passes(Scan(1, false, false), body, Scan(1, false, false), 1) && j < |body|
    ensures body[j] == '}' ==> Run(START, "{" + body[..j]) != Scan(1, false, false)
  {
    RunOpened(body[..j]);
    assert body[..j + 1][..j] == body[..j];
    assert Run(Scan(1, false, false), body[..j + 1]).depth >= 1;
  }

  /** Wherever it stands, a printed object closes at its last character and not before. */
  lemma ObjectClosesAtEnd(obj: Value, prefix: string, suffix: string)
    requires obj.Object? && ValidValue(obj)
    ensures FirstClose(prefix + Print(obj) + suffix, |prefix|, |prefix| + |Print(obj)| - 1)
  {
    var body := obj.space + PrintMembers(obj.members);
    assert Print(obj) == "{" + body + "}";
    PassesBody(1, obj.space, obj.members);
    BracedClosesAtEnd(body, prefix, suffix);
  }

  lemma BracedClosesAtEnd(body: string, prefix: string, suffix: string)
    requires Passes(Scan(1, false, false), body, Scan(1, false, false), 1)
    ensures FirstClose(prefix + ("{" + body + "}") + suffix, |prefix|, |prefix| + |body| + 1)
  {
    var text := prefix + ("{" + body + "}") + suffix;
    var n := |prefix|;
    assert text[n..n + |body| + 1] == "{" + body;
    RunOpened(body);
    forall k | n <= k < n + |body| + 1 ensures !ClosesAt(text, n, k) {
      if k > n {
        var j := k - n - 1;
        assert text[n..k] == "{" + body[..j] && text[k] == body[j];
        StaysOpen(body, j);
      }
    }
  }

  /** The answer is fixed by the text alone. */
  lemma FoundIsDetermined(text: string, i: nat, e: nat, i': nat, e': nat)
    requires IsFirstObject(text, i, e) && IsFirstObject(text, i', e')
    ensures i == i' && e == e'
  {
    assert Closes(text, i) && Closes(text, i');
  }

  lemma OnlyAnswer(text: string, i: int, e: int)
    requires IsFirstObject(text, i, e)
    ensures forall found :: Finds(text, found) <==> found == Some(text[i..e + 1])
  {
    assert Closes(text, i);
    forall found | Finds(text, found) ensures found == Some(text[i..e + 1]) {
      var i', e' :| IsFirstObject(text, i', e') && found.value == text[i'..e' + 1];
      FoundIsDetermined(text, i, e, i', e');
    }
  }

  lemma FirstAfterPrefix(prefix: string, text: string, e: nat)
    requires '{' !in prefix && prefix <= text && FirstClose(text, |prefix|, e) && text[|prefix|] == '{'
    ensures IsFirstObject(text, |prefix|, e)
  {
    assert forall k :: 0 <= k < |prefix| ==> text[k] == prefix[k];
  }

  /**
   * For every JSON object text of RFC 8259, after any prefix without an opening brace and before any
   * suffix at all, the scanner's answer is exactly the object's text and can be nothing else.
   */
  lemma FindsPrintedObject(prefix: string, obj: Value, suffix: string)
    requires obj.Object? && ValidValue(obj) && '{' !in prefix
    ensures forall found :: Finds(prefix + Print(obj) + suffix, found) <==> found == Some(Print(obj))
  {
    var shown := Print(obj);
    assert shown[0] == '{';
    var text := prefix + shown + suffix;
    ObjectClosesAtEnd(obj, prefix, suffix);
    FirstAfterPrefix(prefix, text, |prefix| + |shown| - 1);
    OnlyAnswer(text, |prefix|, |prefix| + |shown| - 1);
    assert text[|prefix|..|prefix| + |shown|] == shown;
  }
}
