/** Writing scalars and keys, plain or quoted, and reading them back: the four
    scanners agree on where each of them ends. */
module YamlSpelling {
  import opened Wrappers
  import opened YamlText
  import opened YamlFlow

  /** How keys are written, and what stands for a double-quoted scalar. */
  datatype Spelling = Spelling(keyStyle: string -> Style, literal: string -> string, unquote: Unquoter)

  function Doubled(s: string): string {
    if s == "" then ""
    else if s[0] == '\'' then "''" + Doubled(s[1..])
    else [s[0]] + Doubled(s[1..])
  }

  function Quoted(s: string): string { "'" + Doubled(s) + "'" }

  /** The rest of a double-quoted literal: its one bare quote is its last character. */
  predicate LiteralRest(s: string, escaped: bool) {
    s != "" && if !escaped && s[0] == '"' then |s| == 1 else LiteralRest(s[1..], !escaped && s[0] == '\\')
  }

  /** The spelling's literal for a value is one, and stands for that value. */
  predicate LiteralFor(value: string, sp: Spelling) {
    var s := sp.literal(value);
    s != "" && s[0] == '"' && LiteralRest(s[1..], false) && sp.unquote(s) == Some(value)
  }

  /** Outside closed expressions there is no quote, no bracket, nothing banned and no
      comment. `blank` says whether a blank comes just before. */
  predicate Smooth(s: string, blank: bool, banned: string)
    decreases |s|
  {
    if s == "" then true
    else if StartsExpression(s) then
      ExpressionLength(s).Some? && Smooth(s[ExpressionLength(s).value..], false, banned)
    else
      && !IsQuote(s[0]) && s[0] !in "{}[]" && s[0] !in banned && (s[0] == '#' ==> !blank)
      && Smooth(s[1..], IsBlank(s[0]), banned)
  }

  /** No white space at either end. */
  predicate Trimmed(s: string) { s != "" && !IsSpace(s[0]) && !IsSpace(s[|s| - 1]) }

  /** The text can be written in this style. */
  predicate Spelled(s: string, style: Style, sp: Spelling) {
    match style
    case Plain => Trimmed(s) && Smooth(s, true, "")
    case SingleQuoted => true
    case DoubleQuoted => LiteralFor(s, sp)
    case BlockText => false
  }

  function Spell(s: string, style: Style, sp: Spelling): string {
    match style
    case Plain => s
    case SingleQuoted => Quoted(s)
    case DoubleQuoted => sp.literal(s)
    case BlockText => s
  }

  /** A plain key holds no colon, or on a line of its own no blank. */
  predicate SpelledKey(key: string, flow: bool, sp: Spelling) {
    && !UnsafeKey(key) && Spelled(key, sp.keyStyle(key), sp)
    && (sp.keyStyle(key) == Plain ==> if flow then ':' !in key else forall c | c in key :: !IsBlank(c))
  }

  function Key(key: string, sp: Spelling): string { Spell(key, sp.keyStyle(key), sp) }

  /** A plain scalar inside brackets holds no comma and no mark. */
  predicate SpelledScalar(value: string, style: Style, sp: Spelling) {
    && Spelled(value, style, sp)
    && (style == Plain ==> Smooth(value, true, ",") && !UnsafeScalar(value))
  }

  /** What may follow a scalar: nothing that could continue a quote or an expression. */
  ghost predicate Apart(after: string) { after == "" || (after[0] != '\'' && after[0] != '{') }

  // ----- Text before a boundary -----

  /** An expression is the same whatever follows it. */
  lemma ExpressionKept(s: string, after: string)
    requires s != "" && Apart(after)
    ensures StartsExpression(s + after) == StartsExpression(s)
    ensures StartsExpression(s) && ExpressionLength(s).Some? ==> ExpressionLength(s + after) == ExpressionLength(s)
  {
    var text := s + after;
    if StartsExpression(s) && ExpressionLength(s).Some? {
      assert text[3..] == s[3..] + after;
      CloseBefore(s[3..], after);
    }
  }

  /** One step over smooth text. */
  function SmoothStep(s: string): (n: nat)
    requires s != ""
    ensures 1 <= n <= |s|
  {
    if StartsExpression(s) && ExpressionLength(s).Some? then ExpressionLength(s).value else 1
  }

  lemma SmoothRest(s: string, blank: bool, banned: string, after: string)
    requires s != "" && Smooth(s, blank, banned)
    ensures var n := SmoothStep(s);
      Smooth(s[n..], !StartsExpression(s) && IsBlank(s[0]), banned) && (s + after)[n..] == s[n..] + after
  {
  }

  /** The last character of an expression is a brace. */
  lemma {:induction false} CloseEnds(s: string)
    requires IndexClose(s).Some?
    ensures s[IndexClose(s).value + 1] == '}'
  {
    if !(s[0] == '}' && s[1] == '}') { CloseEnds(s[1..]); }
  }

  lemma {:induction false} SmoothStarts(s: string, banned: string)
    requires s != "" && Smooth(s, true, banned)
    ensures !IsQuote(s[0]) && s[0] !in "{}[]" && s[0] != '#'
  {
  }

  lemma {:induction false} LiteralEnds(s: string, escaped: bool)
    requires LiteralRest(s, escaped)
    ensures s[|s| - 1] == '"'
  {
    if escaped || s[0] != '"' { LiteralEnds(s[1..], !escaped && s[0] == '\\'); }
  }

  /** Spelled text has no white space at its ends and starts with a quote unless it
      is plain, never with a bracket. */
  lemma SpellStarts(s: string, style: Style, sp: Spelling)
    requires Spelled(s, style, sp)
    ensures var r := Spell(s, style, sp); Trimmed(r) && r[0] !in "{}[]#" && (IsQuote(r[0]) <==> style != Plain)
  {
    match style
    case Plain => SmoothStarts(s, "");
    case SingleQuoted =>
    case DoubleQuoted => LiteralEnds(sp.literal(s)[1..], false);
  }

  // ----- Reading back -----

  lemma {:induction false} ReadDoubled(s: string, after: string)
    requires Apart(after)
    ensures ReadSingle(Doubled(s) + "'" + after) == Some((s, after))
  {
    var text := Doubled(s) + "'" + after;
    if s == "" {
      assert text == "'" + after;
      assert text[1..] == after;
    } else {
      var more := Doubled(s[1..]) + "'" + after;
      ReadDoubled(s[1..], after);
      if s[0] == '\'' {
        assert text == "''" + more;
        assert text[2..] == more;
      } else {
        assert text == [s[0]] + more;
        assert text[1..] == more;
      }
      assert [s[0]] + s[1..] == s;
    }
  }

  lemma {:induction false} LiteralLength(s: string, escaped: bool, after: string)
    requires LiteralRest(s, escaped)
    ensures DoubleLength(s + after, escaped) == Some(|s|)
  {
    if escaped || s[0] != '"' {
      LiteralLength(s[1..], !escaped && s[0] == '\\', after);
      assert (s + after)[1..] == s[1..] + after;
    }
  }

  lemma ReadQuotedBack(s: string, style: Style, after: string, sp: Spelling)
    requires Spelled(s, style, sp) && style != Plain && Apart(after)
    ensures Spell(s, style, sp) != "" && IsQuote(Spell(s, style, sp)[0])
    ensures ReadQuoted(Spell(s, style, sp) + after, sp.unquote) == Some((s, after))
    ensures Spell(s, style, sp)[0] == '\'' <==> style == SingleQuoted
  {
    SpellStarts(s, style, sp);
    var text := Spell(s, style, sp) + after;
    if style == SingleQuoted {
      assert text[0] == '\'' && text[1..] == Doubled(s) + "'" + after;
      ReadDoubled(s, after);
    } else {
      var literal := sp.literal(s);
      LiteralLength(literal[1..], false, after);
      assert text[1..] == literal[1..] + after && text[..|literal|] == literal && text[|literal|..] == after;
    }
  }

  /** The characters that end a plain scalar inside brackets. */
  predicate FlowStops(stops: string) { forall c | c in stops :: c == ',' || c == ']' || c == '}' }

  /** One step over text without a stop. */
  lemma ClearRest(s: string, stops: string)
    requires s != "" && PlainLength(s, stops) == Some(|s|)
    ensures s[0] !in stops && (StartsExpression(s) ==> ExpressionLength(s).Some?)
    ensures PlainLength(s[SmoothStep(s)..], stops) == Some(|s| - SmoothStep(s))
  {
    hide IndexClose;
  }

  lemma ClearStep(s: string, after: string, stops: string)
    requires s != "" && s[0] !in stops && Apart(after) && (StartsExpression(s) ==> ExpressionLength(s).Some?)
    ensures PlainLength(s + after, stops) == Plus(SmoothStep(s), PlainLength(s[SmoothStep(s)..] + after, stops))
  {
    ExpressionKept(s, after);
    var n := SmoothStep(s);
    assert (s + after)[n..] == s[n..] + after && (s + after)[0] == s[0];
    hide IndexClose;
  }

  lemma {:induction false} ClearEnds(s: string, after: string, stops: string)
    requires PlainLength(s, stops) == Some(|s|) && Apart(after) && (after == "" || after[0] in stops)
    ensures PlainLength(s + after, stops) == Some(|s|)
    decreases |s|
  {
    if s == "" {
      assert s + after == after;
    } else {
      ClearRest(s, stops);
      ClearStep(s, after, stops);
      hide PlainLength;
      ClearEnds(s[SmoothStep(s)..], after, stops);
    }
  }

  lemma {:induction false} SmoothClear(s: string, blank: bool, stops: string)
    requires Smooth(s, blank, ",") && FlowStops(stops)
    ensures PlainLength(s, stops) == Some(|s|)
    decreases |s|
  {
    if s != "" {
      SmoothRest(s, blank, ",", "");
      SmoothClear(s[SmoothStep(s)..], !StartsExpression(s) && IsBlank(s[0]), stops);
      ClearStep(s, "", stops);
      assert s + "" == s && s[SmoothStep(s)..] + "" == s[SmoothStep(s)..];
    }
  }

  /** A plain scalar inside brackets reads as exactly its text if and only if it has
      no white space at its ends, no stop outside its expressions and no mark. */
  lemma PlainReadsBack(value: string, after: string, stops: string)
    requires Apart(after) && (after == "" || after[0] in stops) && PlainLength(value, stops) == Some(|value|)
    ensures PlainScalar(value + after, stops) == Some(Parsed(Scalar(value, Plain), after)) <==>
      value != "" && TrimSpace(value) == value && !UnsafeScalar(value)
  {
    ClearEnds(value, after, stops);
    hide UnsafeScalar, TrimSpace, PlainLength;
    assert (value + after)[..|value|] == value && (value + after)[|value|..] == after;
  }

  lemma {:induction false} ColonFollows(s: string, after: string)
    requires ':' !in s && after != "" && after[0] == ':'
    ensures ColonAt(s + after) == |s|
  {
    var text := s + after;
    if s == "" {
      assert text == after;
    } else {
      assert text[0] == s[0] && text[1..] == s[1..] + after;
      ColonFollows(s[1..], after);
    }
  }

  /** A key inside brackets reads as exactly the key. */
  lemma KeyReads(key: string, after: string, sp: Spelling)
    requires SpelledKey(key, true, sp) && after != "" && after[0] == ':'
    ensures Key(key, sp) != "" && ReadKey(Key(key, sp) + after, sp.unquote) == Some((key, after))
  {
    var style := sp.keyStyle(key);
    SpellStarts(key, style, sp);
    hide UnsafeKey, ReadQuoted, Smooth;
    var text := Key(key, sp) + after;
    if style == Plain {
      ColonFollows(key, after);
      TrimNothing(key);
      assert text[..|key|] == key && text[|key|..] == after;
    } else {
      ReadQuotedBack(key, style, after, sp);
    }
  }

  /** The key of a line reads as exactly the key. */
  lemma KeyDecodes(key: string, sp: Spelling)
    requires SpelledKey(key, false, sp)
    ensures DecodeKey(Key(key, sp), sp.unquote) == Some(key)
  {
    var style := sp.keyStyle(key);
    SpellStarts(key, style, sp);
    TrimNothing(Key(key, sp));
    hide UnsafeKey, ReadQuoted, TrimSpace, Smooth;
    if style == Plain {
      assert ' ' !in key && '\t' !in key;
    } else {
      ReadQuotedBack(key, style, "", sp);
      assert Key(key, sp) + "" == Key(key, sp);
      assert TrimSpace("") == "" by { TrimEmpty(); }
    }
  }

  lemma TrimEmpty()
    ensures TrimSpace("") == ""
  {
  }

  // ----- The sanitizer passes them -----

  lemma SanitizesInside(c: char, more: string, flow: seq<char>)
    requires c != '\''
    ensures Sanitized([c] + more, false, Single, flow) == Plus(1, Sanitized(more, false, Single, flow))
  {
    assert ([c] + more)[1..] == more;
  }

  lemma SanitizesPair(more: string, flow: seq<char>)
    ensures Sanitized("''" + more, false, Single, flow) == Plus(2, Sanitized(more, false, Single, flow))
  {
    assert ("''" + more)[2..] == more;
  }

  lemma SanitizesEndQuote(after: string, flow: seq<char>)
    requires Apart(after)
    ensures Sanitized("'" + after, false, Single, flow) == Plus(1, Sanitized(after, false, Outside, flow))
  {
    assert ("'" + after)[1..] == after;
  }

  lemma SanitizesStartQuote(c: char, more: string, blank: bool, flow: seq<char>)
    requires IsQuote(c)
    ensures Sanitized([c] + more, blank, Outside, flow) == Plus(1, Sanitized(more, false, Opening(c), flow))
  {
    assert ([c] + more)[1..] == more;
  }

  lemma DoubledText(s: string, after: string)
    requires s != ""
    ensures Doubled(s) + after == (if s[0] == '\'' then "''" else [s[0]]) + (Doubled(s[1..]) + after)
    ensures |Doubled(s)| == (if s[0] == '\'' then 2 else 1) + |Doubled(s[1..])|
  {
  }

  lemma {:induction false} SanitizesDoubled(s: string, after: string, flow: seq<char>)
    requires Apart(after)
    ensures Sanitized(Doubled(s) + ("'" + after), false, Single, flow)
      == Plus(|Doubled(s)| + 1, Sanitized(after, false, Outside, flow))
  {
    hide Sanitized;
    if s == "" {
      assert Doubled(s) + ("'" + after) == "'" + after;
      SanitizesEndQuote(after, flow);
    } else {
      DoubledText(s, "'" + after);
      hide Doubled;
      SanitizesDoubled(s[1..], after, flow);
      if s[0] == '\'' {
        SanitizesPair(Doubled(s[1..]) + ("'" + after), flow);
      } else {
        SanitizesInside(s[0], Doubled(s[1..]) + ("'" + after), flow);
      }
    }
  }

  lemma LiteralNext(s: string, escaped: bool)
    requires LiteralRest(s, escaped)
    ensures s != "" && (escaped || s[0] != '"' ==> LiteralRest(s[1..], !escaped && s[0] == '\\'))
  {
  }

  lemma {:induction false} SanitizesLiteral(s: string, escaped: bool, after: string, flow: seq<char>)
    requires LiteralRest(s, escaped)
    ensures Sanitized(s + after, false, Double(escaped), flow) == Plus(|s|, Sanitized(after, false, Outside, flow))
  {
    hide *;
    LiteralNext(s, escaped);
    SanitizesLiteralStep(s, escaped, after, flow);
    if escaped || s[0] != '"' {
      SanitizesLiteral(s[1..], !escaped && s[0] == '\\', after, flow);
      PlusPlus(1, |s| - 1, Sanitized(after, false, Outside, flow));
    }
  }

  lemma SanitizesLiteralStep(s: string, escaped: bool, after: string, flow: seq<char>)
    requires LiteralRest(s, escaped)
    ensures Sanitized(s + after, false, Double(escaped), flow)
      == if !escaped && s[0] == '"' then Plus(|s|, Sanitized(after, false, Outside, flow))
         else Plus(1, Sanitized(s[1..] + after, false, Double(!escaped && s[0] == '\\'), flow))
  {
    var text := s + after;
    assert text[0..] == text && text[0] == s[0] && text[1..] == s[1..] + after;
    SanitizedAt(text, 0, false, Double(escaped), flow);
    hide Sanitized, LiteralRest;
    if !escaped && s[0] == '"' { assert text[1..] == after; }
  }

  predicate EndBlank(s: string, blank: bool) { if s == "" then blank else IsBlank(s[|s| - 1]) }

  /** Smooth text passes, in any brackets. */
  lemma {:induction false} SanitizesSmooth(s: string, strict: bool, blank: bool, banned: string, after: string,
        flow: seq<char>)
    requires Smooth(s, strict, banned) && (blank ==> strict) && Apart(after)
    ensures Sanitized(s + after, blank, Outside, flow)
      == Plus(|s|, Sanitized(after, EndBlank(s, blank), Outside, flow))
    decreases |s|
  {
    hide *;
    if s == "" {
      SanitizesNothing(after, blank, flow);
    } else {
      var n := SmoothStep(s);
      var next := !StartsExpression(s) && IsBlank(s[0]);
      SmoothRest(s, strict, banned, after);
      SmoothAdvance(s, strict, blank, banned, after, flow);
      SmoothEndBlank(s, strict, banned, blank);
      SanitizesSmooth(s[n..], next, next, banned, after, flow);
      PlusPlus(n, |s[n..]|, Sanitized(after, EndBlank(s, blank), Outside, flow));
    }
  }

  lemma SanitizesNothing(after: string, blank: bool, flow: seq<char>)
    ensures Sanitized("" + after, blank, Outside, flow)
      == Plus(0, Sanitized(after, EndBlank("", blank), Outside, flow))
  {
    assert "" + after == after;
  }

  lemma SmoothEndBlank(s: string, strict: bool, banned: string, blank: bool)
    requires s != "" && Smooth(s, strict, banned)
    ensures EndBlank(s[SmoothStep(s)..], !StartsExpression(s) && IsBlank(s[0])) == EndBlank(s, blank)
  {
    if StartsExpression(s) { CloseEnds(s[3..]); }
  }

  lemma SmoothAdvance(s: string, strict: bool, blank: bool, banned: string, after: string, flow: seq<char>)
    requires s != "" && Smooth(s, strict, banned) && (blank ==> strict) && Apart(after)
    ensures Sanitized(s + after, blank, Outside, flow)
      == Plus(SmoothStep(s),
        Sanitized(s[SmoothStep(s)..] + after, !StartsExpression(s) && IsBlank(s[0]), Outside, flow))
  {
    ExpressionKept(s, after);
    SmoothRest(s, strict, banned, after);
    assert (s + after)[0] == s[0];
    SanitizedAt(s + after, 0, blank, Outside, flow);
    assert (s + after)[0..] == s + after;
    hide Sanitized, IndexClose;
  }

  /** Spelled text passes. */
  lemma SanitizesSpelled(s: string, style: Style, after: string, blank: bool, flow: seq<char>, sp: Spelling)
    requires Spelled(s, style, sp) && Apart(after)
    ensures Sanitized(Spell(s, style, sp) + after, blank, Outside, flow)
      == Plus(|Spell(s, style, sp)|, Sanitized(after, false, Outside, flow))
  {
    hide Sanitized, Doubled, Smooth, LiteralRest;
    match style
    case Plain => SanitizesSmooth(s, true, blank, "", after, flow);
    case SingleQuoted =>
      assert Quoted(s) + after == "'" + (Doubled(s) + ("'" + after));
      SanitizesStartQuote('\'', Doubled(s) + ("'" + after), blank, flow);
      SanitizesDoubled(s, after, flow);
    case DoubleQuoted =>
      var literal := sp.literal(s);
      assert literal + after == [literal[0]] + (literal[1..] + after);
      SanitizesStartQuote(literal[0], literal[1..] + after, blank, flow);
      SanitizesLiteral(literal[1..], false, after, flow);
  }

  // ----- What the sanitizer refuses -----

  /** A bracket that stays open is refused, and so is one closed by the wrong one. */
  lemma BracketRefused(s: string, blank: bool, banned: string, flow: seq<char>, rest: string)
    requires Smooth(s, blank, banned)
    ensures flow != [] ==> Sanitized(s, blank, Outside, flow) == None
    ensures flow == [] || flow[|flow| - 1] != '{' ==> Sanitized(s + ("}" + rest), blank, Outside, flow) == None
    ensures flow == [] || flow[|flow| - 1] != '[' ==> Sanitized(s + ("]" + rest), blank, Outside, flow) == None
  {
    hide Smooth;
    SanitizesSmooth(s, blank, blank, banned, "", flow);
    SanitizesSmooth(s, blank, blank, banned, "}" + rest, flow);
    SanitizesSmooth(s, blank, blank, banned, "]" + rest, flow);
    assert s + "" == s;
  }

  /** A single quote that stays open is refused. */
  lemma {:induction false} QuoteRefused(s: string, flow: seq<char>)
    ensures Sanitized(Doubled(s), false, Single, flow) == None
  {
    hide Sanitized;
    if s == "" {
      SanitizedOpen(Single, flow);
    } else {
      DoubledText(s, "");
      assert Doubled(s) + "" == Doubled(s) && Doubled(s[1..]) + "" == Doubled(s[1..]);
      hide Doubled;
      QuoteRefused(s[1..], flow);
      if s[0] == '\'' { SanitizesPair(Doubled(s[1..]), flow); } else { SanitizesInside(s[0], Doubled(s[1..]), flow); }
    }
  }

  lemma SanitizedOpen(q: Quote, flow: seq<char>)
    requires q != Outside
    ensures Sanitized("", false, q, flow) == None
  {
  }

  // ----- The splitter passes them -----

  lemma SplitsInside(c: char, more: string)
    requires c != '\''
    ensures KeyEnd([c] + more, Single, 0) == Plus(1, KeyEnd(more, Single, 0))
  {
    assert ([c] + more)[1..] == more;
  }

  lemma SplitsPair(more: string)
    ensures KeyEnd("''" + more, Single, 0) == Plus(2, KeyEnd(more, Single, 0))
  {
    assert ("''" + more)[2..] == more;
  }

  lemma SplitsEndQuote(after: string)
    requires Apart(after)
    ensures KeyEnd("'" + after, Single, 0) == Plus(1, KeyEnd(after, Outside, 0))
  {
    assert ("'" + after)[1..] == after;
  }

  lemma SplitsStartQuote(c: char, more: string)
    requires IsQuote(c)
    ensures KeyEnd([c] + more, Outside, 0) == Plus(1, KeyEnd(more, Opening(c), 0))
  {
    assert ([c] + more)[1..] == more;
  }

  lemma {:induction false} SplitsAfterDoubled(s: string, after: string)
    requires Apart(after)
    ensures KeyEnd(Doubled(s) + ("'" + after), Single, 0) == Plus(|Doubled(s)| + 1, KeyEnd(after, Outside, 0))
  {
    hide KeyEnd;
    if s == "" {
      assert Doubled(s) + ("'" + after) == "'" + after;
      SplitsEndQuote(after);
    } else {
      DoubledText(s, "'" + after);
      hide *;
      var more := Doubled(s[1..]) + ("'" + after);
      SplitsAfterDoubled(s[1..], after);
      if s[0] == '\'' { SplitsPair(more); } else { SplitsInside(s[0], more); }
      PlusPlus(if s[0] == '\'' then 2 else 1, |Doubled(s[1..])| + 1, KeyEnd(after, Outside, 0));
    }
  }

  lemma PlusPlus(a: nat, b: nat, r: Option<nat>)
    ensures Plus(a, Plus(b, r)) == Plus(a + b, r)
  {
  }

  lemma {:induction false} SplitsLiteral(s: string, escaped: bool, after: string)
    requires LiteralRest(s, escaped)
    ensures KeyEnd(s + after, Double(escaped), 0) == Plus(|s|, KeyEnd(after, Outside, 0))
  {
    hide *;
    LiteralNext(s, escaped);
    SplitsLiteralStep(s, escaped, after);
    if escaped || s[0] != '"' {
      SplitsLiteral(s[1..], !escaped && s[0] == '\\', after);
      PlusPlus(1, |s| - 1, KeyEnd(after, Outside, 0));
    }
  }

  lemma SplitsLiteralStep(s: string, escaped: bool, after: string)
    requires LiteralRest(s, escaped)
    ensures KeyEnd(s + after, Double(escaped), 0)
      == if !escaped && s[0] == '"' then Plus(|s|, KeyEnd(after, Outside, 0))
         else Plus(1, KeyEnd(s[1..] + after, Double(!escaped && s[0] == '\\'), 0))
  {
    var text := s + after;
    assert text[0..] == text && text[0] == s[0] && text[1..] == s[1..] + after;
    KeyEndAt(text, 0, Double(escaped), 0);
    hide KeyEnd, LiteralRest;
    if !escaped && s[0] == '"' { assert text[1..] == after; }
  }

  lemma SplitsQuoted(s: string, style: Style, after: string, sp: Spelling)
    requires Spelled(s, style, sp) && style != Plain && Apart(after)
    ensures KeyEnd(Spell(s, style, sp) + after, Outside, 0) == Plus(|Spell(s, style, sp)|, KeyEnd(after, Outside, 0))
  {
    hide KeyEnd, Doubled, LiteralRest, Smooth;
    match style
    case SingleQuoted =>
      assert Quoted(s) + after == "'" + (Doubled(s) + ("'" + after));
      SplitsStartQuote('\'', Doubled(s) + ("'" + after));
      SplitsAfterDoubled(s, after);
    case DoubleQuoted =>
      var literal := sp.literal(s);
      assert literal + after == [literal[0]] + (literal[1..] + after);
      SplitsStartQuote(literal[0], literal[1..] + after);
      SplitsLiteral(literal[1..], false, after);
  }

  /** No colon of an unbroken plain key ends it. */
  lemma {:induction false} SplitsSmooth(s: string, blank: bool, banned: string, after: string)
    requires Smooth(s, blank, banned) && (forall c | c in s :: !IsBlank(c)) && after != "" && after[0] == ':'
    ensures KeyEnd(s + after, Outside, 0) == Plus(|s|, KeyEnd(after, Outside, 0))
    decreases |s|
  {
    hide *;
    if s == "" {
      SplitsNothing(after);
    } else {
      var n := SmoothStep(s);
      SmoothRest(s, blank, banned, after);
      SplitsAdvance(s, blank, banned, after);
      SplitsSmooth(s[n..], !StartsExpression(s) && IsBlank(s[0]), banned, after);
      PlusPlus(n, |s[n..]|, KeyEnd(after, Outside, 0));
    }
  }

  lemma SplitsNothing(after: string)
    ensures KeyEnd("" + after, Outside, 0) == Plus(0, KeyEnd(after, Outside, 0))
  {
    assert "" + after == after;
  }

  lemma SplitsAdvance(s: string, blank: bool, banned: string, after: string)
    requires s != "" && Smooth(s, blank, banned) && (forall c | c in s :: !IsBlank(c)) && after != "" && after[0] == ':'
    ensures KeyEnd(s + after, Outside, 0) == Plus(SmoothStep(s), KeyEnd(s[SmoothStep(s)..] + after, Outside, 0))
  {
    hide KeyEnd;
    var text := s + after;
    SmoothRest(s, blank, banned, after);
    SmoothKeyStep(s, blank, banned, after);
    hide Smooth, StepKey, SmoothStep;
    assert text[0..] == text;
    KeyEndAt(text, 0, Outside, 0);
  }

  lemma SmoothKeyStep(s: string, blank: bool, banned: string, after: string)
    requires s != "" && Smooth(s, blank, banned) && (forall c | c in s :: !IsBlank(c)) && after != "" && after[0] == ':'
    ensures StepKey(s + after, Outside, 0) == KeyNext(SmoothStep(s), Outside, 0)
  {
    var text := s + after;
    ExpressionKept(s, after);
    assert text[0] == s[0] && text[1] == if |s| > 1 then s[1] else ':';
    if |s| > 1 && !StartsExpression(s) { SmoothNext(s, blank, banned); }
    hide IndexClose;
  }

  lemma SmoothNext(s: string, blank: bool, banned: string)
    requires |s| > 1 && Smooth(s, blank, banned) && !StartsExpression(s)
    ensures s[1] != '{' && s[1] != '['
  {
    assert s[1..][0] == s[1];
  }

  /** The key of a line ends at the colon after it. */
  lemma SplitsKey(key: string, after: string, sp: Spelling)
    requires SpelledKey(key, false, sp) && after != "" && after[0] == ':'
    ensures KeyEnd(Key(key, sp) + after, Outside, 0) == Plus(|Key(key, sp)|, KeyEnd(after, Outside, 0))
  {
    hide KeyEnd, Smooth, LiteralRest, UnsafeKey;
    if sp.keyStyle(key) == Plain {
      SplitsSmooth(key, true, "", after);
    } else {
      SplitsQuoted(key, sp.keyStyle(key), after, sp);
    }
  }
}
