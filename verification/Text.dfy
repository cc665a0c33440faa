/** The string operations of Go's standard library that the scrapers use, on sequences of characters. */
module Text {
  import opened Options

  /** Unicode white space, as strings.TrimSpace trims it. */
  predicate IsSpace(c: char) {
    var n := c as int;
    9 <= n <= 13 || n == 32 || n == 0x85 || n == 0xA0 || n == 0x1680 || 0x2000 <= n <= 0x200A ||
    n == 0x2028 || n == 0x2029 || n == 0x202F || n == 0x205F || n == 0x3000
  }

  /** Among the first 128 characters, white space is the blank and the five controls from tab to return. */
  lemma AsciiSpaces(c: char)
    requires (c as int) < 128
    ensures IsSpace(c) <==> c in {' ', '\t', '\n', 11 as char, 12 as char, '\r'}
  {
  }

  function TrimLeft(s: string): string {
    if s != "" && IsSpace(s[0]) then TrimLeft(s[1..]) else s
  }

  function TrimRight(s: string): string {
    if s != "" && IsSpace(s[|s| - 1]) then TrimRight(s[..|s| - 1]) else s
  }

  function TrimSpace(s: string): string {
    TrimRight(TrimLeft(s))
  }

  predicate Trimmed(s: string) {
    s != "" ==> !IsSpace(s[0]) && !IsSpace(s[|s| - 1])
  }

  lemma {:induction false} TrimRightIsPrefix(s: string)
    ensures TrimRight(s) <= s && (TrimRight(s) != "" ==> !IsSpace(TrimRight(s)[|TrimRight(s)| - 1]))
  {
    if s != "" && IsSpace(s[|s| - 1]) {
      TrimRightIsPrefix(s[..|s| - 1]);
    }
  }

  lemma {:induction false} TrimLeftIsSuffix(s: string)
    ensures |TrimLeft(s)| <= |s| && TrimLeft(s) == s[|s| - |TrimLeft(s)|..]
    ensures TrimLeft(s) != "" ==> !IsSpace(TrimLeft(s)[0])
  {
    if s != "" && IsSpace(s[0]) {
      TrimLeftIsSuffix(s[1..]);
    }
  }

  /** Trimming yields a substring without white space at either end, and leaves such strings alone. */
  lemma TrimSpaceTrims(s: string)
    ensures Trimmed(TrimSpace(s))
    ensures forall c :: c in TrimSpace(s) ==> c in s
    ensures Trimmed(s) ==> TrimSpace(s) == s
  {
    TrimLeftIsSuffix(s);
    TrimRightIsPrefix(TrimLeft(s));
    var t := TrimLeft(s);
    var u := TrimSpace(s);
    forall c | c in u
      ensures c in s
    {
      var k :| 0 <= k < |u| && u[k] == c;
      assert t[k] == c;
      assert s[|s| - |t| + k] == c;
    }
  }

  predicate AllSpace(s: string) {
    forall k :: 0 <= k < |s| ==> IsSpace(s[k])
  }

  lemma {:induction false} TrimLeftDropsSpace(s: string)
    ensures |TrimLeft(s)| <= |s| && s == s[..|s| - |TrimLeft(s)|] + TrimLeft(s)
    ensures AllSpace(s[..|s| - |TrimLeft(s)|])
  {
    if s != "" && IsSpace(s[0]) {
      TrimLeftDropsSpace(s[1..]);
      var n := |s[1..]| - |TrimLeft(s[1..])|;
      assert s[..n + 1] == [s[0]] + s[1..][..n];
      assert s == [s[0]] + s[1..];
    }
  }

  lemma {:induction false} TrimRightDropsSpace(s: string)
    ensures TrimRight(s) <= s && AllSpace(s[|TrimRight(s)|..])
  {
    if s != "" && IsSpace(s[|s| - 1]) {
      TrimRightDropsSpace(s[..|s| - 1]);
      var n := |TrimRight(s)|;
      assert s[n..] == s[..|s| - 1][n..] + [s[|s| - 1]];
    }
  }

  /** Trimming cuts off white space at the ends and nothing else. */
  lemma TrimSpaceCutsSpace(s: string) returns (before: string, after: string)
    ensures s == before + TrimSpace(s) + after && AllSpace(before) && AllSpace(after)
  {
    TrimLeftDropsSpace(s);
    var t := TrimLeft(s);
    TrimRightDropsSpace(t);
    before, after := s[..|s| - |t|], t[|TrimRight(t)|..];
    assert t == TrimRight(t) + after;
  }

  lemma {:induction false} TrimLeftOfSpace(before: string, s: string)
    requires AllSpace(before) && (s != "" ==> !IsSpace(s[0]))
    ensures TrimLeft(before + s) == s
  {
    if before == "" {
      assert before + s == s;
    } else {
      assert (before + s)[1..] == before[1..] + s;
      TrimLeftOfSpace(before[1..], s);
    }
  }

  lemma {:induction false} TrimRightOfSpace(s: string, after: string)
    requires AllSpace(after) && (s != "" ==> !IsSpace(s[|s| - 1]))
    ensures TrimRight(s + after) == s
  {
    if after == "" {
      assert s + after == s;
    } else {
      var n := |after| - 1;
      assert (s + after)[..|s + after| - 1] == s + after[..n];
      TrimRightOfSpace(s, after[..n]);
    }
  }

  lemma {:induction false} TrimLeftOfAllSpace(s: string)
    requires AllSpace(s)
    ensures TrimLeft(s) == ""
  {
    if s != "" {
      TrimLeftOfAllSpace(s[1..]);
    }
  }

  /** A trimmed string with white space around it is trimmed to itself. */
  lemma TrimSpaceOfPadded(before: string, s: string, after: string)
    requires AllSpace(before) && Trimmed(s) && AllSpace(after)
    ensures TrimSpace(before + s + after) == s
  {
    if s == "" {
      TrimLeftOfAllSpace(before + s + after);
    } else {
      assert before + s + after == before + (s + after);
      TrimLeftOfSpace(before, s + after);
      TrimRightOfSpace(s, after);
    }
  }

  predicate OccursAt(s: string, sub: string, j: int) {
    0 <= j <= |s| - |sub| && s[j..j + |sub|] == sub
  }

  /** The position of the first occurrence of `sub`. */
  function IndexOf(s: string, sub: string): (r: Option<nat>)
    ensures r.Some? ==> r.value + |sub| <= |s|
  {
    if |s| < |sub| then None
    else if s[..|sub|] == sub then Some(0)
    else
      var r := IndexOf(s[1..], sub);
      if r.Some? then Some(r.value + 1) else None
  }

  lemma {:induction false} IndexOfIsFirst(s: string, sub: string)
    ensures var r := IndexOf(s, sub);
            && (r.Some? ==> OccursAt(s, sub, r.value) && forall j :: j < r.value ==> !OccursAt(s, sub, j))
            && (r.None? ==> forall j :: !OccursAt(s, sub, j))
  {
    if |s| >= |sub| && s[..|sub|] != sub {
      IndexOfIsFirst(s[1..], sub);
      forall j
        ensures OccursAt(s, sub, j) <==> OccursAt(s[1..], sub, j - 1)
      {
        assert 0 < j <= |s| - |sub| ==> s[1..][j - 1..j - 1 + |sub|] == s[j..j + |sub|];
      }
    }
  }

  lemma IndexOfAt(s: string, sub: string, i: nat)
    requires OccursAt(s, sub, i) && forall j :: j < i ==> !OccursAt(s, sub, j)
    ensures IndexOf(s, sub) == Some(i)
  {
    IndexOfIsFirst(s, sub);
  }

  lemma AbsentStart(s: string, sub: string)
    requires sub != "" && sub[0] !in s
    ensures forall j :: !OccursAt(s, sub, j)
  {
    forall j
      ensures !OccursAt(s, sub, j)
    {
      if 0 <= j <= |s| - |sub| {
        assert s[j..j + |sub|][0] == s[j];
      }
    }
  }

  lemma ContainsSameLength(s: string, sub: string)
    requires |s| == |sub|
    ensures Contains(s, sub) <==> s == sub
  {
    assert s[..|sub|] == s;
  }

  predicate Contains(s: string, sub: string) {
    IndexOf(s, sub).Some?
  }

  /** The pieces between the occurrences of `sep`, found from left to right without overlap. */
  function Split(s: string, sep: string): (parts: seq<string>)
    requires sep != ""
    ensures parts != []
    decreases |s|
  {
    var i := IndexOf(s, sep);
    if i.None? then [s] else [s[..i.value]] + Split(s[i.value + |sep|..], sep)
  }

  function Join(parts: seq<string>, sep: string): string {
    if parts == [] then "" else if |parts| == 1 then parts[0] else parts[0] + sep + Join(parts[1..], sep)
  }

  /** All occurrences of `old` replaced, found from left to right without overlap. */
  function ReplaceAll(s: string, old': string, new': string): string
    requires old' != ""
    decreases |s|
  {
    if s == "" then ""
    else if old' <= s then new' + ReplaceAll(s[|old'|..], old', new')
    else [s[0]] + ReplaceAll(s[1..], old', new')
  }

  lemma JoinPrefix(c: char, parts: seq<string>, sep: string)
    requires parts != []
    ensures Join([[c] + parts[0]] + parts[1..], sep) == [c] + Join(parts, sep)
  {
    var longer := [[c] + parts[0]] + parts[1..];
    assert longer[1..] == parts[1..];
  }

  lemma SplitHere(s: string, sep: string)
    requires sep != "" && sep <= s
    ensures Split(s, sep) == [""] + Split(s[|sep|..], sep)
  {
    assert s[..0] == "";
  }

  lemma JoinBlank(parts: seq<string>, sep: string)
    requires parts != []
    ensures Join([""] + parts, sep) == sep + Join(parts, sep)
  {
    assert ([""] + parts)[1..] == parts;
  }

  /** Replacing is joining what was split with something else. */
  lemma {:induction false} ReplacingJoinsSplit(s: string, old': string, new': string)
    requires old' != ""
    ensures ReplaceAll(s, old', new') == Join(Split(s, old'), new')
    decreases |s|
  {
    if s == "" {
    } else if old' <= s {
      var rest := s[|old'|..];
      ReplacingJoinsSplit(rest, old', new');
      SplitHere(s, old');
      JoinBlank(Split(rest, old'), new');
    } else {
      ReplacingJoinsSplit(s[1..], old', new');
      SplitTail(s, old');
      JoinPrefix(s[0], Split(s[1..], old'), new');
    }
  }

  lemma SplitTail(s: string, sep: string)
    requires sep != "" && s != "" && !(sep <= s)
    ensures Split(s, sep) == [[s[0]] + Split(s[1..], sep)[0]] + Split(s[1..], sep)[1..]
  {
    var tail := s[1..];
    var i := IndexOf(tail, sep);
    IndexOfTail(s, sep);
    if i.None? {
      assert s == [s[0]] + tail;
    } else {
      var n := i.value;
      assert s[..n + 1] == [s[0]] + tail[..n] && s[n + 1 + |sep|..] == tail[n + |sep|..];
      assert Split(tail, sep) == [tail[..n]] + Split(tail[n + |sep|..], sep);
    }
  }

  lemma IndexOfTail(s: string, sep: string)
    requires sep != "" && s != "" && !(sep <= s)
    ensures IndexOf(s, sep) == if IndexOf(s[1..], sep).Some? then Some(IndexOf(s[1..], sep).value + 1) else None
  {
  }

  /** Joining what was split gives the string back. */
  lemma {:induction false} JoinSplit(s: string, sep: string)
    requires sep != ""
    ensures Join(Split(s, sep), sep) == s
    decreases |s|
  {
    var i := IndexOf(s, sep);
    if i.Some? {
      var rest := s[i.value + |sep|..];
      IndexOfIsFirst(s, sep);
      JoinSplit(rest, sep);
      var parts := Split(s, sep);
      assert parts[1..] == Split(rest, sep);
      assert s == s[..i.value] + s[i.value..i.value + |sep|] + rest;
    }
  }

  /** A piece that does not contain the separator's first character is cut off whole. */
  lemma SplitHead(p: string, sep: string, rest: string)
    requires sep != "" && sep[0] !in p
    ensures Split(p + sep + rest, sep) == [p] + Split(rest, sep)
  {
    var s := p + sep + rest;
    assert OccursAt(s, sep, |p|);
    forall j | 0 <= j < |p|
      ensures !OccursAt(s, sep, j)
    {
      assert s[j] == p[j];
    }
    IndexOfAt(s, sep, |p|);
    assert s[..|p|] == p && s[|p| + |sep|..] == rest;
  }

  lemma SplitWhole(p: string, sep: string)
    requires sep != "" && sep[0] !in p
    ensures Split(p, sep) == [p]
  {
    IndexOfIsFirst(p, sep);
    AbsentStart(p, sep);
  }

  /** Splitting what was joined gives the pieces back, if none of them contains the separator's first
      character. */
  lemma {:induction false} SplitJoin(parts: seq<string>, sep: string)
    requires parts != [] && sep != "" && forall p :: p in parts ==> sep[0] !in p
    ensures Split(Join(parts, sep), sep) == parts
  {
    if |parts| == 1 {
      SplitWhole(parts[0], sep);
      assert parts == [parts[0]];
    } else {
      SplitJoin(parts[1..], sep);
      SplitHead(parts[0], sep, Join(parts[1..], sep));
      assert parts == [parts[0]] + parts[1..];
    }
  }

  /* ---------- Lexicographic order ---------- */

  /** Go's `<` on strings; on valid UTF-8 the order of the bytes is the order of the characters. */
  predicate Less(a: string, b: string) {
    b != "" && (a == "" || a[0] < b[0] || (a[0] == b[0] && Less(a[1..], b[1..])))
  }

  lemma {:induction false} LessIsTotal(a: string, b: string)
    ensures (if Less(a, b) then 1 else 0) + (if a == b then 1 else 0) + (if Less(b, a) then 1 else 0) == 1
  {
    if a != "" && b != "" {
      LessIsTotal(a[1..], b[1..]);
      assert a == [a[0]] + a[1..] && b == [b[0]] + b[1..];
    }
  }

  lemma {:induction false} LessIsTransitive(a: string, b: string, c: string)
    requires Less(a, b) && Less(b, c)
    ensures Less(a, c)
  {
    if a != "" && a[0] == b[0] == c[0] {
      LessIsTransitive(a[1..], b[1..], c[1..]);
    }
  }
}
