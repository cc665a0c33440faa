/** Cleaning of the profile's postal address. */
module Address {
  import opened Text

  const TWO := "  "

  /** One pass from the right: a space in front of a space is dropped. */
  function Collapse(s: string): string {
    if s == "" then "" else Push(s[0], Collapse(s[1..]))
  }

  function Push(c: char, s: string): string {
    if c == ' ' && s != "" && s[0] == ' ' then s else [c] + s
  }

  predicate NoDoubleSpace(s: string) {
    forall k :: 0 <= k < |s| - 1 ==> !(s[k] == ' ' && s[k + 1] == ' ')
  }

  lemma ContainsTwo(s: string)
    ensures Contains(s, TWO) <==> !NoDoubleSpace(s)
  {
    var r := IndexOf(s, TWO);
    IndexOfIsFirst(s, TWO);
    if r.Some? {
      assert s[r.value] == ' ' && s[r.value + 1] == ' ';
    } else {
      forall k | 0 <= k < |s| - 1
        ensures !(s[k] == ' ' && s[k + 1] == ' ')
      {
        assert s[k..k + 2] == [s[k], s[k + 1]];
        assert !OccursAt(s, TWO, k);
      }
    }
  }

  /** A replacement pass does not change what the one-pass collapse yields. */
  lemma {:induction false} ReplacingKeepsCollapse(s: string)
    ensures Collapse(ReplaceAll(s, TWO, " ")) == Collapse(s)
    decreases |s|
  {
    if s == "" {
    } else if TWO <= s {
      ReplacingKeepsCollapse(s[2..]);
      var rest := ReplaceAll(s[2..], TWO, " ");
      assert (" " + rest)[1..] == rest;
      assert s[1..][1..] == s[2..];
    } else {
      ReplacingKeepsCollapse(s[1..]);
      var rest := ReplaceAll(s[1..], TWO, " ");
      assert ([s[0]] + rest)[1..] == rest;
    }
  }

  /** A replacement pass shortens a string with a double space. */
  lemma {:induction false} ReplacingShortens(s: string)
    ensures |ReplaceAll(s, TWO, " ")| <= |s|
    ensures !NoDoubleSpace(s) ==> |ReplaceAll(s, TWO, " ")| < |s|
    decreases |s|
  {
    if s == "" {
    } else if TWO <= s {
      ReplacingShortens(s[2..]);
    } else {
      ReplacingShortens(s[1..]);
      if !NoDoubleSpace(s) {
        var k :| 0 <= k < |s| - 1 && s[k] == ' ' && s[k + 1] == ' ';
        assert s[1..][k - 1] == ' ' && s[1..][k] == ' ';
      }
    }
  }

  /** Collapsing keeps the ends, drops every double space, and leaves strings without one alone. */
  lemma {:induction false} CollapseCleans(s: string)
    ensures NoDoubleSpace(Collapse(s))
    ensures forall c :: c in Collapse(s) <==> c in s
    ensures s != "" ==> Collapse(s) != "" && Collapse(s)[0] == s[0] && Collapse(s)[|Collapse(s)| - 1] == s[|s| - 1]
    ensures NoDoubleSpace(s) ==> Collapse(s) == s
  {
    if s != "" {
      CollapseCleans(s[1..]);
      var t := Collapse(s[1..]);
      forall k | 0 <= k < |Collapse(s)| - 1
        ensures !(Collapse(s)[k] == ' ' && Collapse(s)[k + 1] == ' ')
      {
        assert Collapse(s) == [s[0]] + t ==> k > 0 ==> Collapse(s)[k] == t[k - 1];
      }
      if NoDoubleSpace(s) {
        forall k | 0 <= k < |s[1..]| - 1
          ensures !(s[1..][k] == ' ' && s[1..][k + 1] == ' ')
        {
          assert !(s[k + 1] == ' ' && s[k + 2] == ' ');
        }
        assert s == [s[0]] + s[1..];
      }
    }
  }

  /* ---------- The address ---------- */

  function CleanLine(line: string): string {
    Collapse(TrimSpace(ReplaceAll(line, "\t", " ")))
  }

  /** The cleaned lines that are not empty, in order. */
  function CleanLines(lines: seq<string>): seq<string> {
    if lines == [] then []
    else
      var n := |lines| - 1;
      CleanLines(lines[..n]) + if CleanLine(lines[n]) != "" then [CleanLine(lines[n])] else []
  }

  function Formatted(address: string): string {
    Join(CleanLines(Split(address, "\n")), ", ")
  }

  method FormatAddress(address: string) returns (r: string)
    ensures r == Formatted(address)
  {
    if address == "" {
      SplitWhole("", "\n");
      assert Collapse(TrimSpace(ReplaceAll("", "\t", " "))) == "";
      assert CleanLines([]) == [] && [""][..0] == [];
      return "";
    }
    var lines := Split(address, "\n");
    var formattedLines: seq<string> := [];
    for i := 0 to |lines|
      invariant formattedLines == CleanLines(lines[..i])
    {
      var cleaned := TrimSpace(ReplaceAll(lines[i], "\t", " "));
      while Contains(cleaned, TWO)
        invariant Collapse(cleaned) == CleanLine(lines[i])
        decreases |cleaned|
      {
        ContainsTwo(cleaned);
        ReplacingKeepsCollapse(cleaned);
        ReplacingShortens(cleaned);
        cleaned := ReplaceAll(cleaned, TWO, " ");
      }
      ContainsTwo(cleaned);
      CollapseCleans(cleaned);
      if cleaned != "" {
        formattedLines := formattedLines + [cleaned];
      }
      assert lines[..i + 1][..i] == lines[..i];
    }
    assert lines[..|lines|] == lines;
    r := Join(formattedLines, ", ");
  }

  /* ---------- The words of a line ---------- */

  /** The parts that are not empty. */
  function NotEmpty(parts: seq<string>): seq<string> {
    if parts == [] then []
    else (if parts[0] == "" then [] else [parts[0]]) + NotEmpty(parts[1..])
  }

  /** The words of a text, as the spaces separate them. */
  function Words(s: string): seq<string> {
    NotEmpty(Split(s, " "))
  }

  lemma SplitSpace(s: string)
    ensures s != "" && s[0] == ' ' ==> Split(s, " ") == [""] + Split(s[1..], " ")
    ensures s != "" && s[0] != ' ' ==> Split(s, " ") == [[s[0]] + Split(s[1..], " ")[0]] + Split(s[1..], " ")[1..]
  {
    if s != "" {
      if s[0] == ' ' {
        assert s[..1] == " ";
        SplitHere(s, " ");
      } else {
        assert !(" " <= s);
        SplitTail(s, " ");
      }
    }
  }

  /** Collapsing neither changes a word nor runs two together. */
  lemma {:induction false} CollapseKeepsWords(s: string)
    ensures Words(Collapse(s)) == Words(s)
    ensures s != "" && s[0] != ' ' ==> Split(Collapse(s), " ")[0] == Split(s, " ")[0]
    ensures NotEmpty(Split(Collapse(s), " ")[1..]) == NotEmpty(Split(s, " ")[1..])
  {
    if s != "" {
      CollapseKeepsWords(s[1..]);
      CollapseCleans(s[1..]);
      CollapseStep(s);
    }
  }

  lemma CollapseStep(s: string)
    requires s != "" && Words(Collapse(s[1..])) == Words(s[1..])
    requires s[1..] != "" && s[1] != ' ' ==> Split(Collapse(s[1..]), " ")[0] == Split(s[1..], " ")[0]
    requires NotEmpty(Split(Collapse(s[1..]), " ")[1..]) == NotEmpty(Split(s[1..], " ")[1..])
    ensures Words(Collapse(s)) == Words(s)
    ensures s[0] != ' ' ==> Split(Collapse(s), " ")[0] == Split(s, " ")[0]
    ensures NotEmpty(Split(Collapse(s), " ")[1..]) == NotEmpty(Split(s, " ")[1..])
  {
    var t := Collapse(s[1..]);
    SplitSpace(s);
    SplitSpace(t);
    SplitSpace([s[0]] + t);
    assert ([s[0]] + t)[1..] == t;
  }

  /* ---------- Tidy addresses ---------- */

  /** A piece of a formatted address. */
  predicate Tidy(s: string) {
    '\n' !in s && '\t' !in s && NoDoubleSpace(s) && Trimmed(s)
  }

  lemma {:induction false} UntabRemovesTabs(s: string)
    ensures '\t' !in ReplaceAll(s, "\t", " ")
    ensures forall c :: c in ReplaceAll(s, "\t", " ") ==> c in s || c == ' '
    ensures '\t' !in s ==> ReplaceAll(s, "\t", " ") == s
    decreases |s|
  {
    if s != "" {
      UntabRemovesTabs(s[1..]);
      assert s == [s[0]] + s[1..];
    }
  }

  lemma CleanLineIsTidy(line: string)
    requires '\n' !in line
    ensures Tidy(CleanLine(line))
    ensures Tidy(line) ==> CleanLine(line) == line
  {
    UntabRemovesTabs(line);
    var t := ReplaceAll(line, "\t", " ");
    TrimSpaceTrims(t);
    CollapseCleans(TrimSpace(t));
  }

  lemma {:induction false} SplitPiecesLackNewline(s: string)
    ensures forall p :: p in Split(s, "\n") ==> '\n' !in p
    decreases |s|
  {
    var i := IndexOf(s, "\n");
    IndexOfIsFirst(s, "\n");
    if i.Some? {
      SplitPiecesLackNewline(s[i.value + 1..]);
      forall k | 0 <= k < i.value
        ensures s[k] != '\n'
      {
        assert s[k..k + 1] == [s[k]];
        assert !OccursAt(s, "\n", k);
      }
    } else {
      forall k | 0 <= k < |s|
        ensures s[k] != '\n'
      {
        assert s[k..k + 1] == [s[k]];
        assert !OccursAt(s, "\n", k);
      }
    }
  }

  lemma {:induction false} CleanLinesAreTidy(lines: seq<string>)
    requires forall l :: l in lines ==> '\n' !in l
    ensures forall p :: p in CleanLines(lines) ==> p != "" && Tidy(p)
  {
    if lines != [] {
      var n := |lines| - 1;
      assert lines[n] in lines;
      CleanLineIsTidy(lines[n]);
      forall l | l in lines[..n]
        ensures '\n' !in l
      {
        assert l in lines;
      }
      CleanLinesAreTidy(lines[..n]);
    }
  }

  lemma {:induction false} JoinIsTidy(parts: seq<string>)
    requires forall p :: p in parts ==> p != "" && Tidy(p)
    ensures Tidy(Join(parts, ", "))
    ensures parts != [] ==> Join(parts, ", ") != ""
  {
    if |parts| == 1 {
      assert parts[0] in parts;
    } else if |parts| > 1 {
      assert parts[0] in parts && forall p :: p in parts[1..] ==> p in parts;
      JoinIsTidy(parts[1..]);
      AppendIsTidy(parts[0], Join(parts[1..], ", "));
    }
  }

  lemma AppendIsTidy(p: string, rest: string)
    requires p != "" && Tidy(p) && rest != "" && Tidy(rest)
    ensures Tidy(p + ", " + rest)
  {
    var s := p + ", " + rest;
    forall k | 0 <= k < |s| - 1
      ensures !(s[k] == ' ' && s[k + 1] == ' ')
    {
      if k >= |p| + 2 {
        assert s[k] == rest[k - |p| - 2] && s[k + 1] == rest[k - |p| - 1];
      }
    }
  }

  /** A formatted address is one line without tabs, double spaces or white space at its ends. */
  lemma FormattedIsTidy(address: string)
    ensures Tidy(Formatted(address))
  {
    SplitPiecesLackNewline(address);
    CleanLinesAreTidy(Split(address, "\n"));
    JoinIsTidy(CleanLines(Split(address, "\n")));
  }

  /** Formatting a formatted address changes nothing; more than that, exactly the tidy strings are
      left alone. */
  lemma FormattedIsIdempotent(address: string)
    ensures Formatted(Formatted(address)) == Formatted(address)
    ensures Formatted(address) == address <==> Tidy(address)
  {
    FormattedIsTidy(address);
    TidyIsFixed(Formatted(address));
    if Tidy(address) {
      TidyIsFixed(address);
    }
  }

  lemma TidyIsFixed(s: string)
    requires Tidy(s)
    ensures Formatted(s) == s
  {
    SplitWhole(s, "\n");
    CleanLineIsTidy(s);
    assert CleanLines([]) == [] && [s][..0] == [];
    assert CleanLines([s]) == if s != "" then [s] else [];
  }

  /* ---------- Which lines, in which order ---------- */

  /** A cleaned line has the words of the line, tabs counting as spaces. */
  lemma CleanLineKeepsWords(line: string)
    ensures Words(CleanLine(line)) == Words(TrimSpace(ReplaceAll(line, "\t", " ")))
  {
    CollapseKeepsWords(TrimSpace(ReplaceAll(line, "\t", " ")));
  }

  /** Lines are cleaned one by one, and their order is kept. */
  lemma {:induction false} CleanLinesInOrder(xs: seq<string>, ys: seq<string>)
    ensures CleanLines(xs + ys) == CleanLines(xs) + CleanLines(ys)
  {
    if ys == [] {
      assert xs + ys == xs;
    } else {
      var n := |ys| - 1;
      CleanLinesInOrder(xs, ys[..n]);
      assert (xs + ys)[..|xs + ys| - 1] == xs + ys[..n];
    }
  }

  lemma {:induction false} TidyLinesStay(lines: seq<string>)
    requires forall i :: 0 <= i < |lines| ==> lines[i] != "" && Tidy(lines[i])
    ensures CleanLines(lines) == lines
  {
    if lines != [] {
      var n := |lines| - 1;
      TidyLinesStay(lines[..n]);
      CleanLineIsTidy(lines[n]);
      assert lines == lines[..n] + [lines[n]];
    }
  }

  /** Tidy lines are joined as they are, in their order. */
  lemma FormattedJoinsLines(lines: seq<string>)
    requires lines != [] && forall i :: 0 <= i < |lines| ==> lines[i] != "" && Tidy(lines[i])
    ensures Formatted(Join(lines, "\n")) == Join(lines, ", ")
  {
    forall l | l in lines
      ensures '\n' !in l
    {
      var i :| 0 <= i < |lines| && lines[i] == l;
    }
    SplitJoin(lines, "\n");
    TidyLinesStay(lines);
  }

  /** For any lines: the first is cleaned and put first, or left out if it is blank. */
  lemma FormattedLineByLine(line: string, rest: string)
    requires '\n' !in line
    ensures var first, others := CleanLine(line), Formatted(rest);
            Formatted(line + "\n" + rest) ==
            if first == "" then others else if others == "" then first else first + ", " + others
  {
    SplitHead(line, "\n", rest);
    var first, parts := CleanLine(line), CleanLines(Split(rest, "\n"));
    CleanLinesInOrder([line], Split(rest, "\n"));
    assert [line][..0] == [] && CleanLines([]) == [];
    assert CleanLines([line]) == if first == "" then [] else [first];
    SplitPiecesLackNewline(rest);
    CleanLinesAreTidy(Split(rest, "\n"));
    JoinIsTidy(parts);
    JoinFirst(first, parts);
    assert [] + parts == parts;
  }

  lemma JoinFirst(p: string, parts: seq<string>)
    ensures Join([p] + parts, ", ") == if parts == [] then p else p + ", " + Join(parts, ", ")
  {
    assert ([p] + parts)[1..] == parts;
  }
}
