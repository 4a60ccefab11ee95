/** Writing a tree as flow text with plain and quoted scalars, and reading it back:
    the four scanners agree on where each value ends. */
module YamlRoundTrip {
  import opened Wrappers
  import opened YamlText
  import opened YamlFlow
  import opened YamlBlock
  import opened YamlSpelling

  /** Trees of scalars that can be written inside brackets, whose mappings have
      distinct, safe, non-empty keys. */
  ghost predicate Renderable(n: Node, sp: Spelling) {
    match n
    case Empty => false
    case Scalar(value, style) => SpelledScalar(value, style, sp)
    case Mapping(entries) =>
      DistinctKeys(entries) && forall i | 0 <= i < |entries| ::
        entries[i].key != "" && SpelledKey(entries[i].key, true, sp) && Renderable(entries[i].value, sp)
    case Sequence(items) => forall i | 0 <= i < |items| :: Renderable(items[i], sp)
  }

  function Render(n: Node, sp: Spelling): string
    decreases n
  {
    match n
    case Empty => ""
    case Scalar(value, style) => Spell(value, style, sp)
    case Mapping(entries) => "{" + RenderEntries(entries, sp) + "}"
    case Sequence(items) => "[" + RenderItems(items, sp) + "]"
  }

  function RenderItems(items: seq<Node>, sp: Spelling): string
    decreases items
  {
    if items == [] then ""
    else Render(items[0], sp) + (if |items| == 1 then "" else ", " + RenderItems(items[1..], sp))
  }

  function RenderEntries(entries: seq<Entry>, sp: Spelling): string
    decreases entries
  {
    if entries == [] then ""
    else
      Key(entries[0].key, sp) + ": " + Render(entries[0].value, sp) +
      (if |entries| == 1 then "" else ", " + RenderEntries(entries[1..], sp))
  }

  // ----- Parsing back -----

  /** What may follow a value inside these brackets. */
  ghost predicate Follows(after: string, stops: string) {
    FlowStops(stops) && Apart(after) && (after == "" || after[0] in stops)
  }

  lemma ValueOfScalar(value: string, style: Style, after: string, stops: string, sp: Spelling)
    requires SpelledScalar(value, style, sp) && Follows(after, stops)
    ensures ParseValue(Spell(value, style, sp) + after, stops, sp.unquote) == Some(Parsed(Scalar(value, style), after))
  {
    SpellStarts(value, style, sp);
    if style == Plain {
      SmoothClear(value, true, stops);
      TrimNothing(value);
      PlainReadsBack(value, after, stops);
    } else {
      ReadQuotedBack(value, style, after, sp);
    }
    hide PlainScalar, ReadQuoted, Spelled, SpelledScalar, ParseItems, ParseEntries;
    var text := Spell(value, style, sp) + after;
    assert text[0] == Spell(value, style, sp)[0] && SkipBlank(text) == text;
  }

  lemma ValueOfBracket(text: string, stops: string, sp: Spelling)
    requires text != ""
    ensures text[0] == '[' ==> ParseValue(text, stops, sp.unquote) == ParseItems(text[1..], [], sp.unquote)
    ensures text[0] == '{' ==> ParseValue(text, stops, sp.unquote) == ParseEntries(text[1..], [], sp.unquote)
  {
  }

  lemma {:induction false} ParsesBack(n: Node, after: string, stops: string, sp: Spelling)
    requires Renderable(n, sp) && Follows(after, stops)
    ensures ParseValue(Render(n, sp) + after, stops, sp.unquote) == Some(Parsed(n, after))
    decreases n
  {
    hide ParseValue, ParseItems, ParseEntries, RenderItems, RenderEntries, Spell, SpelledScalar, SpelledKey,
      DistinctKeys;
    var text := Render(n, sp) + after;
    match n
    case Scalar(value, style) => ValueOfScalar(value, style, after, stops, sp);
    case Sequence(items) =>
      assert text[1..] == RenderItems(items, sp) + ("]" + after);
      ValueOfBracket(text, stops, sp);
      ItemsBack([], items, after, sp);
      assert [] + items == items;
    case Mapping(entries) =>
      assert text[1..] == RenderEntries(entries, sp) + ("}" + after);
      ValueOfBracket(text, stops, sp);
      assert [] + entries == entries;
      EntriesBack([], entries, after, sp);
  }

  /** A rendered value has no white space at its ends and starts with no closing
      bracket. */
  lemma RenderStarts(n: Node, sp: Spelling)
    requires Renderable(n, sp)
    ensures Trimmed(Render(n, sp)) && Render(n, sp)[0] != ']' && Render(n, sp)[0] != '}'
  {
    hide Spelled, Spell, SpelledKey, DistinctKeys, UnsafeScalar, Smooth;
    if n.Scalar? { SpellStarts(n.value, n.style, sp); }
  }

  lemma SkipOne(s: string)
    requires s != "" && !IsBlank(s[0])
    ensures SkipBlank(" " + s) == s && SkipBlank(s) == s
  {
    assert (" " + s)[1..] == s;
  }

  function ItemsTail(items: seq<Node>, sp: Spelling): string {
    if |items| <= 1 then "" else ", " + RenderItems(items[1..], sp)
  }

  function EntriesTail(entries: seq<Entry>, sp: Spelling): string {
    if |entries| <= 1 then "" else ", " + RenderEntries(entries[1..], sp)
  }

  lemma ItemsText(items: seq<Node>, after: string, sp: Spelling)
    requires items != []
    ensures RenderItems(items, sp) + after == Render(items[0], sp) + (ItemsTail(items, sp) + after)
  {
  }

  lemma EntriesText(entries: seq<Entry>, after: string, sp: Spelling)
    requires entries != []
    ensures RenderEntries(entries, sp) + after == Key(entries[0].key, sp)
      + (": " + (Render(entries[0].value, sp) + (EntriesTail(entries, sp) + after)))
  {
    var a, b, c, d := Key(entries[0].key, sp), ": ", Render(entries[0].value, sp), EntriesTail(entries, sp);
    assert RenderEntries(entries, sp) == a + b + c + d;
    hide RenderEntries, EntriesTail, Key, Render;
    Regroup(a, b, c, d, after);
  }

  lemma Regroup(a: string, b: string, c: string, d: string, e: string)
    ensures a + b + c + d + e == a + (b + (c + (d + e)))
  {
  }

  lemma NoItems(read: seq<Node>, after: string, sp: Spelling)
    ensures ParseItems("" + ("]" + after), read, sp.unquote) == Some(Parsed(Sequence(read), after))
  {
    var text := "" + ("]" + after);
    assert text == "]" + after && text[1..] == after;
  }

  lemma NoEntries(read: seq<Entry>, after: string, sp: Spelling)
    ensures ParseEntries("" + ("}" + after), read, sp.unquote) == Some(Parsed(Mapping(read), after))
  {
    var text := "" + ("}" + after);
    assert text == "}" + after && text[1..] == after;
  }

  /** Reading the first item leaves the rest to read. */
  lemma ItemsAdvance(read: seq<Node>, items: seq<Node>, after: string, sp: Spelling)
    requires items != [] && Renderable(items[0], sp) && (|items| > 1 ==> Renderable(items[1], sp))
    requires var tail := ItemsTail(items, sp) + ("]" + after);
      ParseValue(Render(items[0], sp) + tail, ",]", sp.unquote) == Some(Parsed(items[0], tail))
    ensures ParseItems(RenderItems(items, sp) + ("]" + after), read, sp.unquote)
      == ParseItems(RenderItems(items[1..], sp) + ("]" + after), read + [items[0]], sp.unquote)
  {
    hide ParseItems, ParseValue, Renderable, Render, RenderItems;
    var tail := ItemsTail(items, sp) + ("]" + after);
    ItemsText(items, "]" + after, sp);
    RenderStarts(items[0], sp);
    ItemsStep(Render(items[0], sp) + tail, read, items[0], tail, sp);
    var rest := RenderItems(items[1..], sp) + ("]" + after);
    if |items| == 1 {
      NoMoreItems(items, sp);
      assert tail == rest;
    } else {
      assert tail[1..] == " " + rest;
      RenderItemsStarts(items[1..], "]" + after, sp);
      ItemsSkip(rest, read + [items[0]], sp);
    }
  }

  lemma {:induction false} ItemsBack(read: seq<Node>, items: seq<Node>, after: string, sp: Spelling)
    requires forall i | 0 <= i < |items| :: Renderable(items[i], sp)
    ensures ParseItems(RenderItems(items, sp) + ("]" + after), read, sp.unquote)
      == Some(Parsed(Sequence(read + items), after))
    decreases items
  {
    if items == [] {
      NoItems(read, after, sp);
      assert read + items == read && RenderItems(items, sp) == "";
    } else {
      hide *;
      assert Renderable(items[0], sp) && (|items| > 1 ==> Renderable(items[1], sp));
      assert forall i | 0 <= i < |items[1..]| :: Renderable(items[1..][i], sp);
      var tail := ItemsTail(items, sp) + ("]" + after);
      assert Follows(tail, ",]") by { TailFollows(items, after, sp); }
      ParsesBack(items[0], tail, ",]", sp);
      ItemsAdvance(read, items, after, sp);
      ItemsBack(read + [items[0]], items[1..], after, sp);
      assert read + [items[0]] + items[1..] == read + items;
    }
  }

  lemma TailFollows(items: seq<Node>, after: string, sp: Spelling)
    ensures Follows(ItemsTail(items, sp) + ("]" + after), ",]")
  {
  }

  lemma EntriesTailFollows(entries: seq<Entry>, after: string, sp: Spelling)
    ensures Follows(EntriesTail(entries, sp) + ("}" + after), ",}")
  {
  }

  lemma NoMoreItems(items: seq<Node>, sp: Spelling)
    requires |items| == 1
    ensures RenderItems(items[1..], sp) == ""
  {
  }

  lemma NoMoreEntries(entries: seq<Entry>, sp: Spelling)
    requires |entries| == 1
    ensures RenderEntries(entries[1..], sp) == ""
  {
  }

  lemma RenderItemsStarts(items: seq<Node>, after: string, sp: Spelling)
    requires items != [] && Renderable(items[0], sp)
    ensures var text := RenderItems(items, sp) + after; text != "" && !IsBlank(text[0])
  {
    ItemsText(items, after, sp);
    RenderStarts(items[0], sp);
  }

  lemma RenderEntriesStarts(entries: seq<Entry>, after: string, sp: Spelling)
    requires entries != [] && SpelledKey(entries[0].key, true, sp)
    ensures var text := RenderEntries(entries, sp) + after; text != "" && !IsBlank(text[0])
  {
    EntriesText(entries, after, sp);
    SpellStarts(entries[0].key, sp.keyStyle(entries[0].key), sp);
    hide Spelled, Spell, UnsafeKey, RenderEntries;
  }

  lemma SkipTail(tail: string)
    requires tail != "" && (tail[0] == ',' || tail[0] == ']' || tail[0] == '}')
    ensures SkipBlank(tail) == tail
  {
  }

  /** Reading one item moves on past a comma, or to the closing bracket. */
  lemma ItemsStep(text: string, read: seq<Node>, item: Node, tail: string, sp: Spelling)
    requires text != "" && !IsBlank(text[0]) && text[0] != ']'
    requires ParseValue(text, ",]", sp.unquote) == Some(Parsed(item, tail))
    requires tail != "" && (tail[0] == ',' || tail[0] == ']')
    ensures ParseItems(text, read, sp.unquote)
      == ParseItems(if tail[0] == ',' then tail[1..] else tail, read + [item], sp.unquote)
  {
    SkipTail(tail);
    hide ParseValue;
  }

  lemma ItemsSkip(rest: string, read: seq<Node>, sp: Spelling)
    requires rest != "" && !IsBlank(rest[0])
    ensures ParseItems(" " + rest, read, sp.unquote) == ParseItems(rest, read, sp.unquote)
  {
    SkipOne(rest);
  }

  /** Reading the first entry leaves the rest to read. */
  lemma EntriesAdvance(read: seq<Entry>, entries: seq<Entry>, after: string, sp: Spelling)
    requires entries != [] && Renderable(entries[0].value, sp) && entries[0].key != ""
    requires SpelledKey(entries[0].key, true, sp) && !HasKey(read, entries[0].key)
    requires |entries| > 1 ==> SpelledKey(entries[1].key, true, sp)
    requires var tail := EntriesTail(entries, sp) + ("}" + after);
      ParseValue(Render(entries[0].value, sp) + tail, ",}", sp.unquote) == Some(Parsed(entries[0].value, tail))
    ensures ParseEntries(RenderEntries(entries, sp) + ("}" + after), read, sp.unquote)
      == ParseEntries(RenderEntries(entries[1..], sp) + ("}" + after), read + [entries[0]], sp.unquote)
  {
    hide ParseEntries, ParseValue, Renderable, Render, SpelledKey, ReadKey, Key, RenderEntries, HasKey;
    var e := entries[0];
    var tail := EntriesTail(entries, sp) + ("}" + after);
    var valueText := Render(e.value, sp) + tail;
    EntriesText(entries, "}" + after, sp);
    KeyReads(e.key, ": " + valueText, sp);
    ValueAfterBlank(e.value, valueText, tail, sp);
    EntriesStep(Key(e.key, sp) + (": " + valueText), read, e, valueText, tail, sp);
    var rest := RenderEntries(entries[1..], sp) + ("}" + after);
    if |entries| == 1 {
      NoMoreEntries(entries, sp);
      assert tail == rest;
    } else {
      assert tail[1..] == " " + rest;
      RenderEntriesStarts(entries[1..], "}" + after, sp);
      EntriesSkip(rest, read + [e], sp);
    }
  }

  lemma {:induction false} EntriesBack(read: seq<Entry>, entries: seq<Entry>, after: string, sp: Spelling)
    requires DistinctKeys(read + entries)
    requires forall i | 0 <= i < |entries| ::
      entries[i].key != "" && SpelledKey(entries[i].key, true, sp) && Renderable(entries[i].value, sp)
    ensures ParseEntries(RenderEntries(entries, sp) + ("}" + after), read, sp.unquote)
      == Some(Parsed(Mapping(read + entries), after))
    decreases entries
  {
    if entries == [] {
      NoEntries(read, after, sp);
      assert read + entries == read;
    } else {
      hide *;
      assert forall i | 0 <= i < |entries[1..]| :: entries[1..][i] == entries[i + 1];
      var tail := EntriesTail(entries, sp) + ("}" + after);
      assert Follows(tail, ",}") by { EntriesTailFollows(entries, after, sp); }
      ParsesBack(entries[0].value, tail, ",}", sp);
      NewKey(read, entries);
      EntriesAdvance(read, entries, after, sp);
      assert read + [entries[0]] + entries[1..] == read + entries;
      EntriesBack(read + [entries[0]], entries[1..], after, sp);
    }
  }

  lemma EntriesSkip(rest: string, read: seq<Entry>, sp: Spelling)
    requires rest != "" && !IsBlank(rest[0])
    ensures ParseEntries(" " + rest, read, sp.unquote) == ParseEntries(rest, read, sp.unquote)
  {
    SkipOne(rest);
  }

  lemma NewKey(read: seq<Entry>, entries: seq<Entry>)
    requires DistinctKeys(read + entries) && entries != []
    ensures !HasKey(read, entries[0].key)
  {
    var all := read + entries;
    forall i | 0 <= i < |read| ensures read[i].key != entries[0].key {
      assert all[i] == read[i] && all[|read|] == entries[0];
    }
  }

  lemma ValueAfterBlank(n: Node, valueText: string, tail: string, sp: Spelling)
    requires Renderable(n, sp) && valueText == Render(n, sp) + tail
    requires ParseValue(valueText, ",}", sp.unquote) == Some(Parsed(n, tail))
    ensures ParseValue(" " + valueText, ",}", sp.unquote) == Some(Parsed(n, tail))
  {
    RenderStarts(n, sp);
    SkipOne(valueText);
  }

  lemma EntriesStep(text: string, read: seq<Entry>, e: Entry, valueText: string, tail: string, sp: Spelling)
    requires text == Key(e.key, sp) + (": " + valueText) && e.key != "" && SpelledKey(e.key, true, sp)
    requires !HasKey(read, e.key) && ReadKey(text, sp.unquote) == Some((e.key, ": " + valueText))
    requires ParseValue(" " + valueText, ",}", sp.unquote) == Some(Parsed(e.value, tail))
    requires tail != "" && (tail[0] == ',' || tail[0] == '}')
    ensures ParseEntries(text, read, sp.unquote)
      == ParseEntries(if tail[0] == ',' then tail[1..] else tail, read + [e], sp.unquote)
  {
    SpellStarts(e.key, sp.keyStyle(e.key), sp);
    assert text[0] == Key(e.key, sp)[0] && !IsBlank(text[0]) && text[0] != '}';
    var u := ": " + valueText;
    assert u[0] == ':' && u[1..] == " " + valueText;
    SkipTail(tail);
    hide ParseValue, ReadKey, UnsafeKey, HasKey, Key, Spelled, Spell;
  }

  // ----- The sanitizer passes the text -----

  /** Commas, colons and blanks between values pass too. */
  lemma SanitizesGap(gap: string, after: string, flow: seq<char>)
    requires gap == ", " || gap == ": "
    ensures Sanitized(gap + after, false, Outside, flow) == Plus(2, Sanitized(after, true, Outside, flow))
  {
    hide Sanitized;
    assert gap + after == [gap[0]] + (" " + after);
    SanitizesPlain(gap[0], " " + after, false, flow);
    SanitizesPlain(' ', after, false, flow);
  }

  lemma SanitizesPlain(c: char, after: string, blank: bool, flow: seq<char>)
    requires c == ',' || c == ':' || c == ' '
    ensures Sanitized([c] + after, blank, Outside, flow) == Plus(1, Sanitized(after, c == ' ', Outside, flow))
  {
    assert ([c] + after)[1..] == after;
  }

  lemma SanitizesOpen(c: char, after: string, blank: bool, flow: seq<char>)
    requires c == '{' || c == '['
    ensures Sanitized([c] + after, blank, Outside, flow) == Plus(1, Sanitized(after, false, Outside, flow + [c]))
  {
    assert ([c] + after)[1..] == after;
  }

  lemma SanitizesClose(c: char, after: string, blank: bool, flow: seq<char>)
    requires c == '}' || c == ']'
    ensures Sanitized([c] + after, blank, Outside, flow + [if c == '}' then '{' else '['])
      == Plus(1, Sanitized(after, false, Outside, flow))
  {
    assert ([c] + after)[1..] == after;
    var open := flow + [if c == '}' then '{' else '['];
    assert open[..|open| - 1] == flow;
  }

  lemma {:induction false} SanitizesValue(n: Node, after: string, blank: bool, flow: seq<char>, sp: Spelling)
    requires Renderable(n, sp) && Apart(after)
    ensures Sanitized(Render(n, sp) + after, blank, Outside, flow)
      == Plus(|Render(n, sp)|, Sanitized(after, false, Outside, flow))
    decreases n
  {
    hide Sanitized, RenderItems, RenderEntries, Spell, Spelled, DistinctKeys, SpelledKey, UnsafeScalar, Smooth;
    match n
    case Scalar(value, style) => SanitizesSpelled(value, style, after, blank, flow, sp);
    case Sequence(items) =>
      assert Render(n, sp) + after == "[" + (RenderItems(items, sp) + ("]" + after));
      SanitizesOpen('[', RenderItems(items, sp) + ("]" + after), blank, flow);
      SanitizesItems(items, "]" + after, false, flow + ['['], sp);
      SanitizesClose(']', after, false, flow);
    case Mapping(entries) =>
      assert Render(n, sp) + after == "{" + (RenderEntries(entries, sp) + ("}" + after));
      SanitizesOpen('{', RenderEntries(entries, sp) + ("}" + after), blank, flow);
      SanitizesEntries(entries, "}" + after, false, flow + ['{'], sp);
      SanitizesClose('}', after, false, flow);
  }

  lemma {:induction false} SanitizesItems(items: seq<Node>, after: string, blank: bool, flow: seq<char>, sp: Spelling)
    requires (forall i | 0 <= i < |items| :: Renderable(items[i], sp)) && Apart(after) && (items == [] ==> !blank)
    ensures Sanitized(RenderItems(items, sp) + after, blank, Outside, flow)
      == Plus(|RenderItems(items, sp)|, Sanitized(after, false, Outside, flow))
    decreases items
  {
    hide Sanitized, Renderable, Render;
    if items == [] {
      assert RenderItems(items, sp) + after == after;
    } else {
      var rest := ItemsTail(items, sp);
      ItemsText(items, after, sp);
      ItemsText(items, "", sp);
      assert |RenderItems(items, sp)| == |Render(items[0], sp)| + |rest|;
      hide RenderItems;
      SanitizesValue(items[0], rest + after, blank, flow, sp);
      if |items| > 1 {
        assert rest + after == ", " + (RenderItems(items[1..], sp) + after);
        SanitizesGap(", ", RenderItems(items[1..], sp) + after, flow);
        SanitizesItems(items[1..], after, true, flow, sp);
      } else {
        assert rest + after == after;
      }
    }
  }

  lemma SanitizesKey(key: string, after: string, blank: bool, flow: seq<char>, sp: Spelling)
    requires Spelled(key, sp.keyStyle(key), sp) && Apart(after)
    ensures Sanitized(Key(key, sp) + after, blank, Outside, flow)
      == Plus(|Key(key, sp)|, Sanitized(after, false, Outside, flow))
  {
    SanitizesSpelled(key, sp.keyStyle(key), after, blank, flow, sp);
  }

  lemma {:induction false} SanitizesEntries(entries: seq<Entry>, after: string, blank: bool, flow: seq<char>,
        sp: Spelling)
    requires forall i | 0 <= i < |entries| ::
      SpelledKey(entries[i].key, true, sp) && Renderable(entries[i].value, sp)
    requires Apart(after) && (entries == [] ==> !blank)
    ensures Sanitized(RenderEntries(entries, sp) + after, blank, Outside, flow)
      == Plus(|RenderEntries(entries, sp)|, Sanitized(after, false, Outside, flow))
    decreases entries
  {
    hide Sanitized, Renderable, Render, Key, Spelled, UnsafeKey;
    if entries == [] {
      assert RenderEntries(entries, sp) + after == after;
    } else {
      var e := entries[0];
      var rest := EntriesTail(entries, sp);
      var value := Render(e.value, sp) + (rest + after);
      EntriesText(entries, after, sp);
      EntriesText(entries, "", sp);
      assert |RenderEntries(entries, sp)| == |Key(e.key, sp)| + 2 + |Render(e.value, sp)| + |rest|;
      hide RenderEntries;
      SanitizesKey(e.key, ": " + value, blank, flow, sp);
      SanitizesGap(": ", value, flow);
      SanitizesValue(e.value, rest + after, true, flow, sp);
      if |entries| > 1 {
        assert rest + after == ", " + (RenderEntries(entries[1..], sp) + after);
        SanitizesGap(", ", RenderEntries(entries[1..], sp) + after, flow);
        SanitizesEntries(entries[1..], after, true, flow, sp);
      } else {
        assert rest + after == after;
      }
    }
  }

  // ----- The whole line -----

  /** Text that fills a line: no white space at its ends, nothing for the sanitizer
      to cut. */
  ghost predicate Fills(text: string) { Trimmed(text) && Sanitized(text, true, Outside, []) == Some(|text|) }

  /** A plain scalar on a line: no bracket or quote begins it, it is no block
      indicator, and unless it is shell text it holds no mark. */
  ghost predicate PlainLine(text: string, shell: bool) {
    && Fills(text) && text[0] != '{' && text[0] != '[' && !IsQuote(text[0]) && !IsIndicator(text)
    && (shell || !UnsafeScalar(text))
  }

  /** Smooth text fills a line; so do quoted and bracketed values, and more. */
  lemma SmoothFills(text: string)
    requires Trimmed(text) && Smooth(text, true, "")
    ensures Fills(text) && text[0] != '{' && text[0] != '[' && !IsQuote(text[0])
  {
    SmoothStarts(text, "");
    SanitizesSmooth(text, true, true, "", "", []);
    SanitizedEnd("", false, Outside, []);
    hide Smooth, Sanitized;
    assert text + "" == text;
  }

  predicate IsPlain(n: Node) { n.Scalar? && n.style == Plain }

  /** What can be written after a key or a dash. */
  ghost predicate Written(n: Node, shell: bool, sp: Spelling) {
    if IsPlain(n) then PlainLine(n.value, shell) else Renderable(n, sp)
  }

  function Line(key: string, n: Node, sp: Spelling): string { Key(key, sp) + ": " + Render(n, sp) }

  /** A line with a key and a plain scalar or rendered tree passes the sanitizer
      unchanged, splits after the key, and reads back as exactly that key and that
      value. */
  lemma LineRoundTrip(key: string, n: Node, shell: bool, sp: Spelling)
    requires SpelledKey(key, false, sp) && Written(n, shell, sp)
    ensures Sanitized(Line(key, n, sp), true, Outside, []) == Some(|Line(key, n, sp)|)
    ensures SplitMapping(Line(key, n, sp)) == Some((Key(key, sp), Render(n, sp)))
    ensures DecodeKey(Key(key, sp), sp.unquote) == Some(key)
    ensures PolicyValue(Render(n, sp), shell, sp.unquote) == Some(n)
  {
    LineSanitizes(key, n, shell, sp);
    LineSplits(key, n, shell, sp);
    KeyDecodes(key, sp);
    ValueReadsBack(n, shell, sp);
  }

  /** Rendered text fills a line. */
  lemma WrittenFills(n: Node, shell: bool, sp: Spelling)
    requires Written(n, shell, sp)
    ensures Fills(Render(n, sp))
  {
    if !IsPlain(n) {
      RenderStarts(n, sp);
      SanitizedEnd("", false, Outside, []);
      hide Sanitized, Render, Renderable;
      SanitizesValue(n, "", true, [], sp);
      assert Render(n, sp) + "" == Render(n, sp);
    }
  }

  lemma LineSanitizes(key: string, n: Node, shell: bool, sp: Spelling)
    requires SpelledKey(key, false, sp) && Written(n, shell, sp)
    ensures Sanitized(Line(key, n, sp), true, Outside, []) == Some(|Line(key, n, sp)|)
  {
    hide Written, Render;
    WrittenFills(n, shell, sp);
    KeyedFills(key, Render(n, sp), sp);
    assert Line(key, n, sp) == Key(key, sp) + (": " + Render(n, sp));
  }

  lemma KeyedFills(key: string, value: string, sp: Spelling)
    requires SpelledKey(key, false, sp) && Fills(value)
    ensures Sanitized(Key(key, sp) + (": " + value), true, Outside, []) == Some(|Key(key, sp)| + 2 + |value|)
  {
    hide Sanitized, Spelled, UnsafeKey, Key, IsSpace, IsBlank;
    SanitizesKey(key, ": " + value, true, [], sp);
    SanitizesGap(": ", value, []);
  }

  lemma ColonEndsKey(value: string)
    ensures KeyEnd(": " + value, Outside, 0) == Some(0)
  {
    var after := ": " + value;
    assert after[0] == ':' && after[1] == ' ' && !StartsExpression(after);
  }

  lemma TrimKey(key: string, sp: Spelling)
    requires SpelledKey(key, false, sp)
    ensures Trimmed(Key(key, sp)) && TrimSpace(Key(key, sp)) == Key(key, sp)
  {
    SpellStarts(key, sp.keyStyle(key), sp);
    TrimNothing(Key(key, sp));
  }

  lemma LineSplits(key: string, n: Node, shell: bool, sp: Spelling)
    requires SpelledKey(key, false, sp) && Written(n, shell, sp)
    ensures SplitMapping(Line(key, n, sp)) == Some((Key(key, sp), Render(n, sp)))
  {
    hide KeyEnd, Key, Render, TrimSpace, SpelledKey, Written, Sanitized, IsSpace;
    WrittenFills(n, shell, sp);
    TrimKey(key, sp);
    TrimOne(Render(n, sp));
    var k, line, after := Key(key, sp), Line(key, n, sp), ": " + Render(n, sp);
    assert line == k + after && line[..|k|] == k && line[|k| + 1..] == " " + Render(n, sp);
    SplitsKey(key, after, sp);
    ColonEndsKey(Render(n, sp));
  }

  lemma ValueReadsBack(n: Node, shell: bool, sp: Spelling)
    requires Written(n, shell, sp)
    ensures PolicyValue(Render(n, sp), shell, sp.unquote) == Some(n)
  {
    WrittenFills(n, shell, sp);
    TrimNothing(Render(n, sp));
    if !IsPlain(n) {
      RenderOpens(n, sp);
      ParsesBack(n, "", "", sp);
      assert Render(n, sp) + "" == Render(n, sp);
      hide ParseValue, Render, Renderable, TrimSpace, Sanitized, UnsafeScalar;
    } else {
      hide ParseValue, TrimSpace, Sanitized, UnsafeScalar;
    }
  }

  lemma RenderOpens(n: Node, sp: Spelling)
    requires Renderable(n, sp) && !IsPlain(n)
    ensures Render(n, sp) != "" && (Render(n, sp)[0] == '{' || Render(n, sp)[0] == '[' || IsQuote(Render(n, sp)[0]))
  {
    hide Spelled, Spell, SpelledKey, DistinctKeys, UnsafeScalar, Smooth;
    if n.Scalar? { SpellStarts(n.value, n.style, sp); }
  }

  lemma TrimOne(s: string)
    requires Trimmed(s)
    ensures TrimSpace(" " + s) == s
  {
    assert (" " + s)[1..] == s;
    assert TrimLeft(" " + s) == TrimLeft(s);
    TrimNothing(s);
  }

  /** A line that begins with a key is no sequence item. */
  lemma LineFills(key: string, n: Node, shell: bool, sp: Spelling)
    requires SpelledKey(key, false, sp) && Written(n, shell, sp)
    ensures Fills(Line(key, n, sp)) && !IsItem(Line(key, n, sp))
  {
    hide Render, Written, Sanitized, Key, SpelledKey, IsSpace, IsItem;
    WrittenFills(n, shell, sp);
    TrimKey(key, sp);
    LineSanitizes(key, n, shell, sp);
    assert Line(key, n, sp) == Key(key, sp) + (": " + Render(n, sp));
    KeyNoItem(key, ": " + Render(n, sp), sp);
  }

  lemma KeyNoItem(key: string, after: string, sp: Spelling)
    requires SpelledKey(key, false, sp) && after != "" && after[0] == ':' && !IsSpace(after[|after| - 1])
    ensures !IsItem(Key(key, sp) + after)
  {
    SpellStarts(key, sp.keyStyle(key), sp);
    hide Spelled, UnsafeKey;
    var k := Key(key, sp);
    var text := k + after;
    TrimNothing(text);
    assert text[|k|] == ':';
    assert text != "-";
    if k[0] == '-' && |k| > 1 { assert k[1] in key; }
  }

  lemma LineReads(key: string, n: Node, sp: Spelling)
    requires SpelledKey(key, false, sp) && Written(n, key == "run", sp)
    ensures ReadLine(Line(key, n, sp)) == TextLine(0, Line(key, n, sp))
  {
    var line := Line(key, n, sp);
    LineFills(key, n, key == "run", sp);
    TrimNothing(line);
    hide Line, Sanitized, TrimSpace, Written, SpelledKey;
    assert line[0..] == line && line[..|line|] == line;
  }

  lemma LineValue(lines: seq<string>, j: nat, indent: nat, key: string, n: Node, sp: Spelling)
    requires Written(n, key == "run", sp) && j <= |lines|
    ensures EntryValue(lines, j, indent, key, Render(n, sp), sp.unquote) == Some(Read(n, j))
  {
    WrittenFills(n, key == "run", sp);
    TrimNothing(Render(n, sp));
    ValueReadsBack(n, key == "run", sp);
    if !IsPlain(n) { RenderOpens(n, sp); }
    hide Render, Renderable, PolicyValue, TrimSpace, RunEnd, RunScalar, Nested, Sanitized, UnsafeScalar;
  }

  lemma LineEntry(lines: seq<string>, key: string, n: Node, sp: Spelling)
    requires SpelledKey(key, false, sp) && Written(n, key == "run", sp) && |lines| == 1
    ensures AddEntry(lines, 1, 0, [], Key(key, sp), Render(n, sp), sp.unquote)
      == Some(ReadEntries([Entry(key, n)], 1))
  {
    hide Render, Written, Key, DecodeKey, UnsafeKey, EntryValue, Spelled;
    KeyDecodes(key, sp);
    LineValue(lines, 1, 0, key, n, sp);
    assert [] + [Entry(key, n)] == [Entry(key, n)];
  }

  /** A document of one such line is the mapping with that one entry. */
  lemma DocumentOfLine(key: string, n: Node, sp: Spelling)
    requires SpelledKey(key, false, sp) && Written(n, key == "run", sp)
    ensures Document([Line(key, n, sp)], sp.unquote) == Some(Mapping([Entry(key, n)]))
  {
    var lines := [Line(key, n, sp)];
    LineReads(key, n, sp);
    LineFills(key, n, key == "run", sp);
    LineSplits(key, n, key == "run", sp);
    LineEntry(lines, key, n, sp);
    hide Line, Render, Written, Key, ReadLine, SplitMapping, AddEntry, IsItem, SpelledKey, Fills, Items;
    OneLine(lines, Line(key, n, sp));
    hide PeekFrom;
    LastEntry(lines, [Entry(key, n)], sp.unquote);
    assert Entries(lines, 0, 0, [], sp.unquote) == Entries(lines, 1, 0, [Entry(key, n)], sp.unquote);
  }

  lemma OneLine(lines: seq<string>, text: string)
    requires |lines| == 1 && ReadLine(lines[0]) == TextLine(0, text)
    ensures PeekFrom(lines, 0) == At(0, 0, text) && PeekFrom(lines, 1) == NoLine
  {
    hide ReadLine;
  }

  lemma LastEntry(lines: seq<string>, entries: seq<Entry>, unquote: Unquoter)
    requires |lines| == 1 && PeekFrom(lines, 1) == NoLine
    ensures Entries(lines, 1, 0, entries, unquote) == Some(Read(Mapping(entries), 1))
  {
    hide PeekFrom;
  }
}
