/** Text under a `run` key, written one indented line per line and read back. */
module YamlRunText {
  import opened Wrappers
  import opened YamlText
  import opened YamlFlow
  import opened YamlBlock

  function Spaces(n: nat): string { if n == 0 then "" else " " + Spaces(n - 1) }

  function SplitLines(s: string): (parts: seq<string>)
    ensures parts != []
  {
    if s == "" then [""]
    else
      var rest := SplitLines(s[1..]);
      if s[0] == '\n' then [""] + rest else [[s[0]] + rest[0]] + rest[1..]
  }

  /** A line that comes back as it is: empty, or with more than white space in it and
      no carriage return at its end. */
  predicate Kept(part: string) { part == "" || (TrimSpace(part) != "" && part[|part| - 1] != '\r') }

  /** Text whose lines come back, and whose least indentation is none. */
  ghost predicate RunText(value: string) {
    var parts := SplitLines(value);
    && (forall p | p in parts :: Kept(p))
    && ((forall p | p in parts :: p == "") || (exists p | p in parts :: p != "" && p[0] != ' '))
  }

  function RunLines(value: string, indent: nat): seq<string> {
    var parts := SplitLines(value);
    seq(|parts|, i requires 0 <= i < |parts| => Spaces(indent) + parts[i])
  }

  // ----- Splitting and joining -----

  lemma {:induction false} JoinHead(head: string, tail: string, rest: seq<string>, separator: string)
    ensures Join([head + tail] + rest, separator) == head + Join([tail] + rest, separator)
    decreases |rest|
  {
    var a, b := [head + tail] + rest, [tail] + rest;
    if rest != [] {
      var less := rest[..|rest| - 1];
      assert a[..|a| - 1] == [head + tail] + less && b[..|b| - 1] == [tail] + less;
      JoinHead(head, tail, less, separator);
    }
  }

  lemma {:induction false} JoinFirst(first: string, rest: seq<string>, separator: string)
    requires rest != []
    ensures Join([first] + rest, separator) == first + separator + Join(rest, separator)
    decreases |rest|
  {
    var all := [first] + rest;
    var less := rest[..|rest| - 1];
    assert all[..|all| - 1] == [first] + less;
    if less != [] {
      JoinFirst(first, less, separator);
    }
  }

  /** The text with every line break replaced. */
  function Rejoined(s: string, c: char): string {
    seq(|s|, i requires 0 <= i < |s| => if s[i] == '\n' then c else s[i])
  }

  /** Splitting and joining again replaces the line breaks and changes nothing else. */
  lemma {:induction false} JoinSplit(s: string, c: char)
    ensures Join(SplitLines(s), [c]) == Rejoined(s, c)
  {
    if s != "" {
      var rest := SplitLines(s[1..]);
      JoinSplit(s[1..], c);
      hide Join;
      if s[0] == '\n' {
        JoinFirst("", rest, [c]);
        assert Rejoined(s, c) == "" + [c] + Rejoined(s[1..], c);
      } else {
        assert rest == [rest[0]] + rest[1..];
        JoinHead([s[0]], rest[0], rest[1..], [c]);
        assert Rejoined(s, c) == [s[0]] + Rejoined(s[1..], c);
      }
    }
  }

  // ----- Indented lines -----

  lemma NoSpaces(s: string)
    ensures Spaces(0) + s == s
  {
  }

  lemma MoreSpaces(n: nat, s: string)
    requires 0 < n
    ensures Spaces(n) + s == " " + (Spaces(n - 1) + s)
  {
    assert Spaces(n) == " " + Spaces(n - 1);
    hide Spaces;
  }

  /** What one space in front changes. */
  lemma {:induction false} OneSpace(s: string)
    ensures TrimSpace(" " + s) == TrimSpace(s) && LeadingSpaces(" " + s) == 1 + LeadingSpaces(s)
    ensures forall n: nat | n <= |s| :: (" " + s)[n + 1..] == s[n..]
  {
    assert (" " + s)[1..] == s;
  }

  lemma {:induction false} SpacesTrimmed(n: nat, s: string)
    ensures TrimSpace(Spaces(n) + s) == TrimSpace(s) && LeadingSpaces(Spaces(n) + s) == n + LeadingSpaces(s)
    ensures |Spaces(n) + s| == n + |s| && (Spaces(n) + s)[n..] == s
  {
    hide *;
    if n == 0 {
      NoSpaces(s);
    } else {
      SpacesTrimmed(n - 1, s);
      MoreSpaces(n, s);
      OneSpace(Spaces(n - 1) + s);
    }
  }

  lemma {:induction false} LastOfSpaces(n: nat)
    ensures n > 0 ==> |Spaces(n)| == n && Spaces(n)[n - 1] == ' '
  {
    if n > 1 { LastOfSpaces(n - 1); }
  }

  lemma NothingToTrim()
    ensures TrimSpace("") == ""
  {
  }

  /** How a line of the text looks to the reader. */
  lemma LineKept(n: nat, part: string)
    requires Kept(part)
    ensures var line := Spaces(n) + part;
      && WithoutReturn(line) == line && (IsEmptyLine(line) <==> part == "")
      && LeadingSpaces(line) == n + LeadingSpaces(part) && CutLine(line, n) == part
  {
    var line := Spaces(n) + part;
    SpacesTrimmed(n, part);
    LastOfSpaces(n);
    NothingToTrim();
    hide Spaces, TrimSpace, LeadingSpaces;
    if part != "" {
      assert line[|line| - 1] == part[|part| - 1];
    } else {
      assert line == Spaces(n);
    }
  }

  // ----- The whole text -----

  lemma {:induction false} LeastIndent(lines: seq<string>, n: nat)
    requires forall l | l in lines :: IsEmptyLine(l) || n <= LeadingSpaces(WithoutReturn(l))
    ensures MinIndent(lines).Some? ==> n <= MinIndent(lines).value
    ensures (exists l | l in lines :: !IsEmptyLine(l) && LeadingSpaces(WithoutReturn(l)) == n) ==>
      MinIndent(lines) == Some(n)
  {
    if lines != [] {
      var init, last := lines[..|lines| - 1], lines[|lines| - 1];
      assert lines == init + [last];
      hide IsEmptyLine, LeadingSpaces, WithoutReturn;
      LeastIndent(init, n);
    }
  }

  /** The lines from `j` on are those of the text, and then it is over. */
  ghost predicate TextAt(lines: seq<string>, j: nat, value: string, indent: nat) {
    var part := RunLines(value, indent + 2);
    && j + |part| <= |lines| && (forall k | 0 <= k < |part| :: lines[j + k] == part[k])
    && (j + |part| < |lines| ==>
         !IsEmptyLine(lines[j + |part|]) && LeadingSpaces(WithoutReturn(lines[j + |part|])) <= indent)
  }

  lemma {:induction false} RunEndsAt(lines: seq<string>, j: nat, end: nat, indent: nat)
    requires j <= end <= |lines|
    requires forall k | j <= k < end :: IsEmptyLine(lines[k]) || LeadingSpaces(WithoutReturn(lines[k])) > indent
    requires end < |lines| ==> !IsEmptyLine(lines[end]) && LeadingSpaces(WithoutReturn(lines[end])) <= indent
    ensures RunEnd(lines, j, indent) == end
    decreases end - j
  {
    hide IsEmptyLine, LeadingSpaces, WithoutReturn;
    if j < end { RunEndsAt(lines, j + 1, end, indent); }
  }

  /** Each line of the text as it is written. */
  lemma LineOfText(value: string, indent: nat, i: nat)
    requires RunText(value) && i < |SplitLines(value)|
    ensures var line, part := RunLines(value, indent)[i], SplitLines(value)[i];
      && line == Spaces(indent) + part && WithoutReturn(line) == line && (IsEmptyLine(line) <==> part == "")
      && LeadingSpaces(line) == indent + LeadingSpaces(part) && CutLine(line, indent) == part
  {
    hide SplitLines, Spaces, Kept, LeadingSpaces, IsEmptyLine, CutLine, WithoutReturn;
    var part := SplitLines(value)[i];
    assert part in SplitLines(value);
    LineKept(indent, part);
  }

  lemma RunEndsThere(lines: seq<string>, j: nat, value: string, indent: nat)
    requires RunText(value) && TextAt(lines, j, value, indent)
    ensures RunEnd(lines, j, indent) == j + |RunLines(value, indent + 2)|
  {
    hide SplitLines, Spaces, LeadingSpaces, IsEmptyLine, WithoutReturn, RunText;
    var part := RunLines(value, indent + 2);
    forall k | j <= k < j + |part|
      ensures IsEmptyLine(lines[k]) || LeadingSpaces(WithoutReturn(lines[k])) > indent
    {
      assert lines[j + (k - j)] == part[k - j];
      LineOfText(value, indent + 2, k - j);
    }
    RunEndsAt(lines, j, j + |part|, indent);
  }

  lemma LeastOfText(value: string, indent: nat)
    requires RunText(value) && exists p | p in SplitLines(value) :: p != "" && p[0] != ' '
    ensures MinIndent(RunLines(value, indent)) == Some(indent)
  {
    hide SplitLines, Spaces, LeadingSpaces, IsEmptyLine, WithoutReturn, RunText, MinIndent;
    var parts, lines := SplitLines(value), RunLines(value, indent);
    forall l | l in lines ensures IsEmptyLine(l) || indent <= LeadingSpaces(WithoutReturn(l)) {
      var i :| 0 <= i < |lines| && lines[i] == l;
      LineOfText(value, indent, i);
    }
    var p :| p in parts && p != "" && p[0] != ' ';
    var i :| 0 <= i < |parts| && parts[i] == p;
    NoLead(p);
    LineOfText(value, indent, i);
    assert lines[i] in lines;
    LeastIndent(lines, indent);
  }

  lemma CutText(value: string, indent: nat, cut: nat)
    requires RunText(value) && (cut == indent || forall p | p in SplitLines(value) :: p == "")
    ensures CutLines(RunLines(value, indent), cut) == SplitLines(value)
  {
    hide SplitLines, Spaces, LeadingSpaces, IsEmptyLine, WithoutReturn, RunText, CutLine;
    var parts, lines := SplitLines(value), RunLines(value, indent);
    forall i | 0 <= i < |parts| ensures CutLine(lines[i], cut) == parts[i] {
      LineOfText(value, indent, i);
      assert parts[i] in parts;
      if cut != indent { EmptyCut(lines[i], cut); }
    }
    assert CutLines(lines, cut) == parts;
  }

  /** What an indicator makes of a text: folded, or as it is. */
  function Shown(value: string, indicator: string): string {
    Rejoined(value, if indicator != "" && indicator[0] == '>' then ' ' else '\n')
  }

  lemma ShownLiteral(value: string)
    ensures Shown(value, "|") == value
  {
  }

  /** The text, cut by its least indentation and joined, is the value. */
  lemma RunTextBack(value: string, indent: nat, indicator: string)
    requires RunText(value)
    ensures RunScalar(RunLines(value, indent + 2), indent, indicator) == Scalar(Shown(value, indicator), BlockText)
  {
    hide SplitLines, Spaces, Kept, Join, MinIndent, CutLines, RunLines, Rejoined;
    JoinSplit(value, if indicator != "" && indicator[0] == '>' then ' ' else '\n');
    var lines := RunLines(value, indent + 2);
    var least := MinIndent(lines);
    if exists p | p in SplitLines(value) :: p != "" && p[0] != ' ' { LeastOfText(value, indent + 2); }
    CutText(value, indent + 2, if least.None? then indent + 1 else least.value);
  }

  lemma EmptyCut(line: string, k: nat)
    requires IsEmptyLine(line)
    ensures CutLine(line, k) == ""
  {
  }

  lemma {:induction false} NoLead(p: string)
    requires p != "" && p[0] != ' '
    ensures LeadingSpaces(p) == 0
  {
  }

  lemma IndicatorTrimmed(s: string)
    requires IsIndicator(s)
    ensures TrimSpace(s) == s
  {
    TrimNothing(s);
  }

  lemma TextThere(lines: seq<string>, j: nat, value: string, indent: nat)
    requires TextAt(lines, j, value, indent)
    ensures var part := RunLines(value, indent + 2); j + |part| <= |lines| && lines[j..j + |part|] == part
  {
    hide RunLines, IsEmptyLine, LeadingSpaces, WithoutReturn;
  }

  /** The value after a `run` key and an indicator, read from the lines below it. */
  lemma RunBack(lines: seq<string>, j: nat, value: string, indent: nat, indicator: string, unquote: Unquoter)
    requires RunText(value) && TextAt(lines, j, value, indent) && IsIndicator(indicator)
    ensures j <= |lines| && EntryValue(lines, j, indent, "run", indicator, unquote)
      == Some(Read(Scalar(Shown(value, indicator), BlockText), j + |RunLines(value, indent + 2)|))
  {
    hide RunLines, RunScalar, RunEnd, TrimSpace, RunText, PolicyValue, Nested, TextAt, Shown, IsIndicator;
    IndicatorTrimmed(indicator);
    TextThere(lines, j, value, indent);
    RunEndsThere(lines, j, value, indent);
    RunTextBack(value, indent, indicator);
  }
}
