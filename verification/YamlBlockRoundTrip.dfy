/** Writing a tree in block style, one line per key or item and two more spaces per
    level, and reading the document back. */
module YamlBlockRoundTrip {
  import opened Wrappers
  import opened YamlText
  import opened YamlFlow
  import opened YamlBlock
  import opened YamlSpelling
  import opened YamlRoundTrip
  import opened YamlRunText

  predicate IsText(n: Node) { n.Scalar? && n.style == BlockText }

  /** Trees of scalars and empty values, with block text under `run` keys, whose
      mappings have distinct, safe keys. A plain item must not look like a key and
      its value; a plain value after a key may. */
  ghost predicate BlockTree(n: Node, sp: Spelling) {
    match n
    case Empty => true
    case Scalar(value, style) =>
      if style == Plain then PlainLine(value, false) && SplitMapping(value) == None else Spelled(value, style, sp)
    case Mapping(entries) =>
      DistinctKeys(entries) && forall i | 0 <= i < |entries| ::
        && SpelledKey(entries[i].key, false, sp)
        && (if IsText(entries[i].value) then entries[i].key == "run" && RunText(entries[i].value.value)
            else if IsPlain(entries[i].value) then PlainLine(entries[i].value.value, entries[i].key == "run")
            else BlockTree(entries[i].value, sp))
    case Sequence(items) => forall i | 0 <= i < |items| :: BlockTree(items[i], sp)
  }

  ghost predicate BlockEntry(e: Entry, sp: Spelling) {
    && SpelledKey(e.key, false, sp)
    && (if IsText(e.value) then e.key == "run" && RunText(e.value.value)
        else if IsPlain(e.value) then PlainLine(e.value.value, e.key == "run")
        else BlockTree(e.value, sp))
  }

  /** What goes on the line itself: scalars and empty collections. */
  predicate Leaf(n: Node) {
    match n
    case Empty => false
    case Scalar(_, _) => true
    case Mapping(entries) => entries == []
    case Sequence(items) => items == []
  }

  /** Which mappings in a sequence begin on the line of their dash. */
  type Layout = Node -> bool

  predicate Compact(n: Node, layout: Layout) { n.Mapping? && n.entries != [] && layout(n) }

  /** The text after a key's colon. */
  function ValueText(n: Node, sp: Spelling): string { if IsText(n) then "|" else if Leaf(n) then Render(n, sp) else "" }

  function KeyText(e: Entry, sp: Spelling): string {
    if IsText(e.value) then Key(e.key, sp) + ": |"
    else if Leaf(e.value) then Line(e.key, e.value, sp)
    else Key(e.key, sp) + ":"
  }

  /** The text after an item's dash. */
  function DashText(n: Node, layout: Layout, sp: Spelling): string {
    if Compact(n, layout) then KeyText(n.entries[0], sp) else if Leaf(n) then Render(n, sp) else ""
  }

  function ItemText(n: Node, layout: Layout, sp: Spelling): string {
    if DashText(n, layout, sp) == "" then "-" else "- " + DashText(n, layout, sp)
  }

  function BlockLines(n: Node, indent: nat, layout: Layout, sp: Spelling): seq<string>
    decreases n, 0
  {
    match n
    case Empty => []
    case Scalar(_, _) => []
    case Mapping(entries) => EntryLines(entries, indent, layout, sp)
    case Sequence(items) => ItemLines(items, indent, layout, sp)
  }

  /** The lines below a key. */
  function Below(n: Node, indent: nat, layout: Layout, sp: Spelling): seq<string>
    decreases n, 1
  {
    if IsText(n) then RunLines(n.value, indent + 2) else BlockLines(n, indent + 2, layout, sp)
  }

  /** The lines below a dash: a block, or the rest of the mapping begun on its line. */
  function BelowDash(n: Node, indent: nat, layout: Layout, sp: Spelling): seq<string>
    decreases n, 2
  {
    if Compact(n, layout) then
      Below(n.entries[0].value, indent + 2, layout, sp) + EntryLines(n.entries[1..], indent + 2, layout, sp)
    else BlockLines(n, indent + 2, layout, sp)
  }

  function EntryLines(entries: seq<Entry>, indent: nat, layout: Layout, sp: Spelling): seq<string>
    decreases entries
  {
    if entries == [] then []
    else
      [Spaces(indent) + KeyText(entries[0], sp)] + Below(entries[0].value, indent, layout, sp) +
      EntryLines(entries[1..], indent, layout, sp)
  }

  function ItemLines(items: seq<Node>, indent: nat, layout: Layout, sp: Spelling): seq<string>
    decreases items
  {
    if items == [] then []
    else
      [Spaces(indent) + ItemText(items[0], layout, sp)] + BelowDash(items[0], indent, layout, sp) +
      ItemLines(items[1..], indent, layout, sp)
  }

  // ----- One line -----

  lemma {:induction false} IndentOf(n: nat, text: string)
    requires text != "" && text[0] != ' ' && text[0] != '\t'
    ensures Indent(Spaces(n) + text) == Some(n)
  {
    hide *;
    if n == 0 {
      NoSpaces(text);
      NotIndented(text);
    } else {
      IndentOf(n - 1, text);
      MoreSpaces(n, text);
      OneIndent(Spaces(n - 1) + text);
    }
  }

  lemma {:induction false} NotIndented(text: string)
    requires text != "" && text[0] != ' ' && text[0] != '\t'
    ensures Indent(text) == Some(0)
  {
  }

  lemma {:induction false} OneIndent(s: string)
    requires Indent(s).Some?
    ensures Indent(" " + s) == Some(Indent(s).value + 1)
  {
    assert (" " + s)[1..] == s;
  }

  /** An indented line without trailing space that passes the sanitizer is read as
      its indent and text. */
  lemma IndentedReads(n: nat, text: string)
    requires Fills(text)
    ensures ReadLine(Spaces(n) + text) == TextLine(n, text)
  {
    IndentOf(n, text);
    SpacesTrimmed(n, text);
    TrimNothing(text);
    var line := Spaces(n) + text;
    assert line[|line| - 1] == text[|text| - 1];
    hide Spaces, Indent, Sanitized, TrimSpace;
    assert WithoutReturn(line) == line;
    assert text[..|text|] == text;
  }

  /** A comment after a blank changes nothing about how the line is read. */
  lemma CommentIgnored(n: nat, text: string, comment: string)
    requires Fills(text)
    ensures ReadLine(Spaces(n) + (text + (" #" + comment))) == TextLine(n, text)
  {
    hide Spaces, Indent, Sanitized, TrimSpace, IsSpace, StartsExpression;
    var c := WithoutReturn(comment);
    var whole := text + (" #" + c);
    CommentReturn(Spaces(n) + (text + " #"), comment);
    assert Spaces(n) + (text + " #") + comment == Spaces(n) + (text + (" #" + comment));
    assert Spaces(n) + (text + " #") + c == Spaces(n) + whole;
    CommentCut(text, true, Outside, [], " #" + c);
    SpaceNotBlank(text);
    IndentOf(n, whole);
    SpacesTrimmed(n, whole);
    TrimAfter(text);
    assert whole[..|text| + 1] == text + " ";
  }

  lemma SpaceNotBlank(text: string)
    requires Trimmed(text)
    ensures text[0] != ' ' && text[0] != '\t'
  {
  }

  lemma CommentReturn(text: string, comment: string)
    requires text != "" && text[|text| - 1] != '\r'
    ensures WithoutReturn(text + comment) == text + WithoutReturn(comment)
  {
    var line := text + comment;
    if comment == "" {
      assert line == text;
    } else {
      assert line[|line| - 1] == comment[|comment| - 1];
      assert line[..|line| - 1] == text + comment[..|comment| - 1];
    }
  }

  lemma TrimAfter(text: string)
    requires Trimmed(text)
    ensures TrimSpace(text + " ") == text
  {
    assert (text + " ")[..|text|] == text;
    assert TrimRight(text + " ") == TrimRight(text);
  }

  lemma LeafWritten(n: Node, sp: Spelling)
    requires BlockTree(n, sp) && Leaf(n)
    ensures Written(n, false, sp)
  {
  }

  lemma ValueWritten(e: Entry, sp: Spelling)
    requires BlockEntry(e, sp) && !IsText(e.value) && Leaf(e.value)
    ensures Written(e.value, e.key == "run", sp)
  {
    if !IsPlain(e.value) { LeafWritten(e.value, sp); }
  }

  /** A leaf after a dash holds no key. */
  lemma LeafNoKey(n: Node, sp: Spelling)
    requires BlockTree(n, sp) && Leaf(n)
    ensures SplitMapping(Render(n, sp)) == None
  {
    match n
    case Scalar(value, style) =>
      if style != Plain {
        hide KeyEnd, Spelled;
        SplitsQuoted(value, style, "", sp);
        KeyEndNowhere("", Outside, 0);
        assert Spell(value, style, sp) + "" == Spell(value, style, sp);
      }
    case Mapping(_) => BracketsNoKey("{}");
    case Sequence(_) => BracketsNoKey("[]");
  }

  lemma BracketsNoKey(text: string)
    requires text == "{}" || text == "[]"
    ensures KeyEnd(text, Outside, 0) == None
  {
    assert text[1..] == [text[1]] && text[1..][1..] == "";
    assert KeyEnd(text[1..][1..], Outside, 0) == None;
    assert KeyEnd(text[1..], Outside, 1) == None;
  }

  /** A key alone on its line, and one before block text. */
  lemma BareKey(key: string, sp: Spelling)
    requires SpelledKey(key, false, sp)
    ensures var text := Key(key, sp) + ":";
      Fills(text) && !IsItem(text) && SplitMapping(text) == Some((Key(key, sp), ""))
  {
    hide KeyEnd, Sanitized, Key, SpelledKey, IsItem, TrimSpace;
    var k := Key(key, sp);
    TrimKey(key, sp);
    BareKeySanitizes(key, sp);
    SplitsKey(key, ":", sp);
    ColonAlone();
    KeyNoItem(key, ":", sp);
    CutAfter(k, ":");
    assert ":"[1..] == "";
    assert TrimSpace("") == "" by { TrimEmpty(); }
  }

  lemma ColonAlone()
    ensures KeyEnd(":", Outside, 0) == Some(0) && Apart(":") && Apart(": |")
  {
  }

  lemma BareKeySanitizes(key: string, sp: Spelling)
    requires SpelledKey(key, false, sp)
    ensures Sanitized(Key(key, sp) + ":", true, Outside, []) == Some(|Key(key, sp)| + 1)
  {
    hide Sanitized, Spelled, UnsafeKey, Key;
    assert [':'] + "" == ":";
    SanitizesKey(key, ":", true, [], sp);
    SanitizesPlain(':', "", false, []);
    NothingLeftOver();
  }

  lemma NothingLeftOver()
    ensures Sanitized("", false, Outside, []) == Some(0)
  {
    SanitizedEnd("", false, Outside, []);
  }

  lemma BarKey(key: string, sp: Spelling)
    requires SpelledKey(key, false, sp)
    ensures var text := Key(key, sp) + ": |";
      Fills(text) && !IsItem(text) && SplitMapping(text) == Some((Key(key, sp), "|"))
  {
    hide KeyEnd, Sanitized, Key, SpelledKey, IsItem, TrimSpace;
    var k := Key(key, sp);
    TrimKey(key, sp);
    TrimOne("|");
    BarFills();
    KeyedFills(key, "|", sp);
    assert ": " + "|" == ": |";
    SplitsKey(key, ": |", sp);
    ColonEndsKey("|");
    KeyNoItem(key, ": |", sp);
    CutAfter(k, ": |");
    assert ": |"[1..] == " |" == " " + "|";
  }

  lemma BarFills()
    ensures Fills("|")
  {
    SanitizedEnd("", false, Outside, []);
    assert "|"[1..] == "";
  }

  lemma CutAfter(q: string, rest: string)
    requires rest != ""
    ensures (q + rest)[..|q|] == q && (q + rest)[|q| + 1..] == rest[1..]
  {
  }

  lemma KeyFills(e: Entry, sp: Spelling)
    requires BlockEntry(e, sp)
    ensures Fills(KeyText(e, sp)) && !IsItem(KeyText(e, sp))
    ensures SplitMapping(KeyText(e, sp)) == Some((Key(e.key, sp), ValueText(e.value, sp)))
  {
    hide SplitMapping, Sanitized, Key, Render, RunText, Fills, IsItem, SpelledKey;
    if IsText(e.value) {
      BarKey(e.key, sp);
    } else if Leaf(e.value) {
      ValueWritten(e, sp);
      LineFills(e.key, e.value, e.key == "run", sp);
      LineSplits(e.key, e.value, e.key == "run", sp);
    } else {
      BareKey(e.key, sp);
    }
  }

  lemma DashFills(text: string)
    requires Fills(text)
    ensures Fills("- " + text) && IsItem("- " + text) && SequenceText("- " + text) == text
  {
    var line := "- " + text;
    SanitizesDash(text);
    SanitizesBlank(text);
    hide Sanitized;
    assert line[0] == '-' && line[1] == ' ' && line[2..] == text && line[|line| - 1] == text[|text| - 1];
    TrimNothing(line);
    TrimNothing(text);
  }

  lemma SanitizesBlank(text: string)
    ensures Sanitized(" " + text, false, Outside, []) == Plus(1, Sanitized(text, true, Outside, []))
  {
    assert [' '] + text == " " + text;
    SanitizesPlain(' ', text, false, []);
  }

  lemma SanitizesDash(value: string)
    ensures Sanitized("- " + value, true, Outside, []) == Plus(1, Sanitized(" " + value, false, Outside, []))
  {
    assert ("- " + value)[1..] == " " + value;
  }

  lemma BareDashFills()
    ensures Fills("-") && IsItem("-") && SequenceText("-") == ""
  {
    SanitizedEnd("", false, Outside, []);
    assert "-"[1..] == "";
    TrimNothing("-");
  }

  lemma LeafFills(n: Node, sp: Spelling)
    requires BlockTree(n, sp) && Leaf(n)
    ensures Fills(Render(n, sp)) && SplitMapping(Render(n, sp)) == None
  {
    hide Written, SplitMapping, Fills;
    LeafWritten(n, sp);
    LeafNoKey(n, sp);
    WrittenFills(n, false, sp);
  }

  lemma ItemFills(n: Node, layout: Layout, sp: Spelling)
    requires BlockTree(n, sp)
    ensures Fills(ItemText(n, layout, sp)) && IsItem(ItemText(n, layout, sp))
    ensures SequenceText(ItemText(n, layout, sp)) == DashText(n, layout, sp)
  {
    hide IsItem, SequenceText, Render, KeyText, SpelledKey, DistinctKeys, RunText, Sanitized;
    if Compact(n, layout) {
      FirstEntry(n, sp);
      KeyFills(n.entries[0], sp);
      DashFills(KeyText(n.entries[0], sp));
    } else if Leaf(n) {
      LeafFills(n, sp);
      DashFills(Render(n, sp));
    } else {
      BareDashFills();
    }
  }

  lemma FirstEntry(n: Node, sp: Spelling)
    requires BlockTree(n, sp) && n.Mapping? && n.entries != []
    ensures BlockEntry(n.entries[0], sp)
  {
  }

  // ----- Blocks -----

  /** The lines from `i` on start with these. */
  ghost predicate Holds(lines: seq<string>, i: nat, part: seq<string>) {
    i + |part| <= |lines| && forall k | 0 <= k < |part| :: lines[i + k] == part[k]
  }

  /** A line of this indentation and text, also to the reader of block text. */
  ghost predicate Shows(line: string, indent: nat, text: string) {
    && ReadLine(line) == TextLine(indent, text)
    && !IsEmptyLine(line) && LeadingSpaces(WithoutReturn(line)) == indent
  }

  /** At `i` the lines are over, or there is one that is indented less. */
  ghost predicate Ends(lines: seq<string>, i: nat, indent: nat) {
    i == |lines| || (i < |lines| && exists k: nat, text :: k < indent && Shows(lines[i], k, text))
  }

  lemma FilledShows(indent: nat, text: string)
    requires Fills(text)
    ensures Shows(Spaces(indent) + text, indent, text)
  {
    IndentedReads(indent, text);
    TrimNothing(text);
    hide Sanitized, ReadLine, Spaces, LeadingSpaces, TrimSpace, IsEmptyLine, WithoutReturn;
    assert Kept(text);
    LineKept(indent, text);
    NoLead(text);
  }

  lemma EndsPeek(lines: seq<string>, i: nat, indent: nat)
    requires Ends(lines, i, indent)
    ensures i <= |lines|
    ensures var p := PeekFrom(lines, i); p.NoLine? || (p.At? && p.indent < indent)
  {
    hide ReadLine;
    if i < |lines| {
      var k: nat, text :| k < indent && Shows(lines[i], k, text);
      PeekAt(lines, i, k, text);
    }
  }

  lemma EndsText(lines: seq<string>, j: nat, value: string, indent: nat)
    requires Holds(lines, j, RunLines(value, indent + 2)) && Ends(lines, j + |RunLines(value, indent + 2)|, indent + 1)
    ensures TextAt(lines, j, value, indent)
  {
    hide ReadLine, RunLines, IsEmptyLine, LeadingSpaces, WithoutReturn;
  }

  lemma HoldsParts(lines: seq<string>, i: nat, line: string, below: seq<string>, rest: seq<string>)
    requires Holds(lines, i, [line] + below + rest)
    ensures i < |lines| && lines[i] == line && Holds(lines, i + 1, below) && Holds(lines, i + 1 + |below|, rest)
  {
    var part := [line] + below + rest;
    assert part[0] == line;
    assert forall k | 0 <= k < |below| :: part[1 + k] == below[k];
    assert forall k | 0 <= k < |rest| :: part[1 + |below| + k] == rest[k];
    forall k | 0 <= k < |below| ensures lines[i + 1 + k] == below[k] { assert lines[i + (1 + k)] == part[1 + k]; }
    forall k | 0 <= k < |rest| ensures lines[i + 1 + |below| + k] == rest[k] {
      assert lines[i + (1 + |below| + k)] == part[1 + |below| + k];
    }
  }

  lemma BelowFits(lines: seq<string>, i: nat, part: seq<string>)
    requires Holds(lines, i, part)
    ensures i + |part| <= |lines|
  {
  }

  lemma PeekAt(lines: seq<string>, i: nat, indent: nat, text: string)
    requires i < |lines| && ReadLine(lines[i]) == TextLine(indent, text)
    ensures PeekFrom(lines, i) == At(i, indent, text)
  {
  }

  lemma {:induction false} NestedBack(lines: seq<string>, j: nat, indent: nat, n: Node,
        layout: Layout, sp: Spelling)
    requires BlockTree(n, sp) && !Leaf(n) && Holds(lines, j, BlockLines(n, indent + 2, layout, sp))
    requires Ends(lines, j + |BlockLines(n, indent + 2, layout, sp)|, indent + 1)
    ensures Nested(lines, j, indent, sp.unquote) == Some(Read(n, j + |BlockLines(n, indent + 2, layout, sp)|))
    decreases n, 1
  {
    hide Block, ReadLine, BlockTree, PeekFrom, Ends, EntryLines, ItemLines, Holds;
    BelowFits(lines, j, BlockLines(n, indent + 2, layout, sp));
    if n == Empty {
      EndsPeek(lines, j, indent + 1);
    } else {
      FirstLine(lines, j, indent + 2, n, layout, sp);
      EndsMore(lines, j + |BlockLines(n, indent + 2, layout, sp)|, indent + 1);
      BlockBack(lines, j, indent + 2, n, layout, sp);
    }
  }

  lemma EndsMore(lines: seq<string>, i: nat, indent: nat)
    requires Ends(lines, i, indent)
    ensures Ends(lines, i, indent + 1)
  {
    hide Shows;
  }

  lemma FirstLine(lines: seq<string>, i: nat, indent: nat, n: Node, layout: Layout, sp: Spelling)
    requires BlockTree(n, sp) && !Leaf(n) && n != Empty && Holds(lines, i, BlockLines(n, indent, layout, sp))
    ensures var p := PeekFrom(lines, i); p.At? && p.indent == indent && (n.Sequence? <==> IsItem(p.text))
  {
    hide ReadLine, Spaces, KeyText, ItemText, PeekFrom, IsItem, Holds, Fills, Below, BelowDash, EntryLines, ItemLines,
      SpelledKey, DistinctKeys, RunText, PlainLine;
    match n
    case Mapping(entries) =>
      var e := entries[0];
      EntryParts(entries, indent, layout, sp);
      HoldsParts(lines, i, Spaces(indent) + KeyText(e, sp), Below(e.value, indent, layout, sp),
        EntryLines(entries[1..], indent, layout, sp));
      FirstEntry(n, sp);
      KeyFills(e, sp);
      FilledPeek(lines, i, indent, KeyText(e, sp));
    case Sequence(items) =>
      ItemParts(items, indent, layout, sp);
      HoldsParts(lines, i, Spaces(indent) + ItemText(items[0], layout, sp), BelowDash(items[0], indent, layout, sp),
        ItemLines(items[1..], indent, layout, sp));
      ItemFills(items[0], layout, sp);
      FilledPeek(lines, i, indent, ItemText(items[0], layout, sp));
  }

  lemma FilledPeek(lines: seq<string>, i: nat, indent: nat, text: string)
    requires i < |lines| && lines[i] == Spaces(indent) + text && Fills(text)
    ensures Shows(lines[i], indent, text) && PeekFrom(lines, i) == At(i, indent, text)
  {
    hide ReadLine, Spaces, Fills, IsEmptyLine, LeadingSpaces, WithoutReturn;
    FilledShows(indent, text);
    PeekAt(lines, i, indent, text);
  }

  lemma {:induction false} BlockBack(lines: seq<string>, i: nat, indent: nat, n: Node,
        layout: Layout, sp: Spelling)
    requires BlockTree(n, sp) && !Leaf(n) && n != Empty && Holds(lines, i, BlockLines(n, indent, layout, sp))
    requires Ends(lines, i + |BlockLines(n, indent, layout, sp)|, indent)
    ensures Block(lines, i, indent, sp.unquote) == Some(Read(n, i + |BlockLines(n, indent, layout, sp)|))
    decreases n, 0
  {
    hide Block, ReadLine, PeekFrom, IsItem, Entries, Items, EntryLines, ItemLines, Ends, Holds, SpelledKey,
      DistinctKeys, RunText, PlainLine;
    BelowFits(lines, i, BlockLines(n, indent, layout, sp));
    FirstLine(lines, i, indent, n, layout, sp);
    BlockUnfold(lines, i, indent, sp);
    match n
    case Mapping(entries) =>
      assert [] + entries == entries;
      EntriesBlockBack(lines, i, indent, [], entries, layout, sp);
    case Sequence(items) =>
      assert [] + items == items;
      ItemsBlockBack(lines, i, indent, [], items, layout, sp);
  }

  // ----- The parser's functions, one step at a time -----

  lemma BlockUnfold(lines: seq<string>, i: nat, indent: nat, sp: Spelling)
    requires i <= |lines| && PeekFrom(lines, i).At? && PeekFrom(lines, i).indent == indent
    ensures Block(lines, i, indent, sp.unquote)
      == if IsItem(PeekFrom(lines, i).text) then Items(lines, i, indent, [], sp.unquote)
         else Entries(lines, i, indent, [], sp.unquote)
  {
    hide PeekFrom, IsItem, Items, Entries;
  }

  lemma EntriesUnfold(lines: seq<string>, i: nat, indent: nat, read: seq<Entry>, text: string, key: string,
        rest: string, sp: Spelling)
    requires i < |lines| && PeekFrom(lines, i) == At(i, indent, text) && !IsItem(text)
    requires SplitMapping(text) == Some((key, rest))
    ensures Entries(lines, i, indent, read, sp.unquote)
      == match AddEntry(lines, i + 1, indent, read, key, rest, sp.unquote)
         case None => None
         case Some(more) => Entries(lines, more.next, indent, more.entries, sp.unquote)
  {
    hide PeekFrom, IsItem, SplitMapping, AddEntry;
  }

  lemma EntriesEnd(lines: seq<string>, i: nat, indent: nat, read: seq<Entry>, sp: Spelling)
    requires i <= |lines| && Ends(lines, i, indent)
    ensures Entries(lines, i, indent, read, sp.unquote) == Some(Read(Mapping(read), i))
    ensures ItemEntries(lines, i, indent, read, sp.unquote) == Some(Read(Mapping(read), i))
  {
    hide PeekFrom, IsItem, SplitMapping, AddEntry, Ends;
    EndsPeek(lines, i, indent);
  }

  lemma ItemEntriesUnfold(lines: seq<string>, i: nat, indent: nat, read: seq<Entry>, text: string, key: string,
        rest: string, sp: Spelling)
    requires i < |lines| && PeekFrom(lines, i) == At(i, indent, text) && !IsItem(text)
    requires SplitMapping(text) == Some((key, rest))
    ensures ItemEntries(lines, i, indent, read, sp.unquote)
      == match AddEntry(lines, i + 1, indent, read, key, rest, sp.unquote)
         case None => None
         case Some(more) => ItemEntries(lines, more.next, indent, more.entries, sp.unquote)
  {
    hide PeekFrom, IsItem, SplitMapping, AddEntry;
  }

  lemma ItemsUnfold(lines: seq<string>, i: nat, indent: nat, read: seq<Node>, text: string, sp: Spelling)
    requires i < |lines| && PeekFrom(lines, i) == At(i, indent, text) && IsItem(text)
    ensures Items(lines, i, indent, read, sp.unquote)
      == match Item(lines, i + 1, indent, SequenceText(text), sp.unquote)
         case None => None
         case Some(item) => Items(lines, item.next, indent, read + [item.node], sp.unquote)
  {
    hide PeekFrom, IsItem, SequenceText, Item;
  }

  lemma ItemsEnd(lines: seq<string>, i: nat, indent: nat, read: seq<Node>, sp: Spelling)
    requires i <= |lines| && Ends(lines, i, indent)
    ensures Items(lines, i, indent, read, sp.unquote) == Some(Read(Sequence(read), i))
  {
    hide PeekFrom, IsItem, SequenceText, Item, Ends;
    EndsPeek(lines, i, indent);
  }

  lemma EntryParts(entries: seq<Entry>, indent: nat, layout: Layout, sp: Spelling)
    requires entries != []
    ensures EntryLines(entries, indent, layout, sp)
      == [Spaces(indent) + KeyText(entries[0], sp)] + Below(entries[0].value, indent, layout, sp)
         + EntryLines(entries[1..], indent, layout, sp)
  {
  }

  lemma NoLinesLeft(indent: nat, layout: Layout, sp: Spelling)
    ensures EntryLines([], indent, layout, sp) == [] && ItemLines([], indent, layout, sp) == []
  {
  }

  lemma ItemParts(items: seq<Node>, indent: nat, layout: Layout, sp: Spelling)
    requires items != []
    ensures ItemLines(items, indent, layout, sp)
      == [Spaces(indent) + ItemText(items[0], layout, sp)] + BelowDash(items[0], indent, layout, sp)
         + ItemLines(items[1..], indent, layout, sp)
  {
  }

  lemma LeafBelow(n: Node, indent: nat, layout: Layout, sp: Spelling)
    requires Leaf(n)
    ensures BlockLines(n, indent, layout, sp) == []
  {
    NoLinesLeft(indent, layout, sp);
  }

  // ----- Entries -----

  lemma {:induction false} ValueBack(lines: seq<string>, j: nat, indent: nat, e: Entry,
        layout: Layout, sp: Spelling)
    requires BlockEntry(e, sp) && Holds(lines, j, Below(e.value, indent, layout, sp))
    requires Ends(lines, j + |Below(e.value, indent, layout, sp)|, indent + 1)
    ensures EntryValue(lines, j, indent, e.key, ValueText(e.value, sp), sp.unquote)
      == Some(Read(e.value, j + |Below(e.value, indent, layout, sp)|))
    decreases e.value, 2
  {
    hide Ends, Holds, RunText, RunLines, SpelledKey, EntryValue, BlockLines, Shown;
    if IsText(e.value) {
      EndsText(lines, j, e.value.value, indent);
      RunBack(lines, j, e.value.value, indent, "|", sp.unquote);
      ShownLiteral(e.value.value);
    } else {
      BelowFits(lines, j, Below(e.value, indent, layout, sp));
      TreeBack(lines, j, indent, e, layout, sp);
    }
  }

  lemma {:induction false} TreeBack(lines: seq<string>, j: nat, indent: nat, e: Entry,
        layout: Layout, sp: Spelling)
    requires BlockEntry(e, sp) && !IsText(e.value) && Holds(lines, j, BlockLines(e.value, indent + 2, layout, sp))
    requires Ends(lines, j + |BlockLines(e.value, indent + 2, layout, sp)|, indent + 1)
    ensures EntryValue(lines, j, indent, e.key, ValueText(e.value, sp), sp.unquote)
      == Some(Read(e.value, j + |BlockLines(e.value, indent + 2, layout, sp)|))
    decreases e.value, 2, 0
  {
    var n := e.value;
    hide BlockLines, BlockTree, Ends, Holds, SpelledKey, PlainLine, RunText, Written;
    BelowFits(lines, j, BlockLines(n, indent + 2, layout, sp));
    if Leaf(n) {
      ValueWritten(e, sp);
      LineValue(lines, j, indent, e.key, n, sp);
      LeafBelow(n, indent + 2, layout, sp);
      hide Render, EntryValue;
    } else {
      hide Nested, RunEnd, RunScalar, PolicyValue;
      NestedBack(lines, j, indent, n, layout, sp);
    }
  }

  lemma AddStep(lines: seq<string>, j: nat, indent: nat, read: seq<Entry>, e: Entry, value: string,
        next: nat, sp: Spelling)
    requires j <= next <= |lines| && SpelledKey(e.key, false, sp) && !HasKey(read, e.key)
    requires EntryValue(lines, j, indent, e.key, value, sp.unquote) == Some(Read(e.value, next))
    ensures AddEntry(lines, j, indent, read, Key(e.key, sp), value, sp.unquote) == Some(ReadEntries(read + [e], next))
  {
    hide DecodeKey, UnsafeKey, HasKey, EntryValue, Key, Spelled;
    KeyDecodes(e.key, sp);
  }

  /** Reading an entry's lines leaves the rest of the mapping to read. */
  lemma EntryStep(lines: seq<string>, i: nat, indent: nat, read: seq<Entry>, e: Entry, next: nat, sp: Spelling)
    requires i < |lines| && lines[i] == Spaces(indent) + KeyText(e, sp) && BlockEntry(e, sp)
    requires i < next <= |lines| && !HasKey(read, e.key)
    requires EntryValue(lines, i + 1, indent, e.key, ValueText(e.value, sp), sp.unquote) == Some(Read(e.value, next))
    ensures Entries(lines, i, indent, read, sp.unquote) == Entries(lines, next, indent, read + [e], sp.unquote)
    ensures ItemEntries(lines, i, indent, read, sp.unquote) == ItemEntries(lines, next, indent, read + [e], sp.unquote)
  {
    hide Entries, ItemEntries, AddEntry, ReadLine, IsItem, SplitMapping, SpelledKey, HasKey, EntryValue, KeyText, Key,
      ValueText, Spaces, RunText, BlockTree, PeekFrom, Fills, Shows, PlainLine;
    KeyFills(e, sp);
    FilledPeek(lines, i, indent, KeyText(e, sp));
    EntriesUnfold(lines, i, indent, read, KeyText(e, sp), Key(e.key, sp), ValueText(e.value, sp), sp);
    ItemEntriesUnfold(lines, i, indent, read, KeyText(e, sp), Key(e.key, sp), ValueText(e.value, sp), sp);
    AddStep(lines, i + 1, indent, read, e, ValueText(e.value, sp), next, sp);
  }

  /** The entries of a mapping, whether it has lines of its own or was begun after a
      dash. */
  lemma {:induction false} EntriesBlockBack(lines: seq<string>, i: nat, indent: nat, read: seq<Entry>,
        entries: seq<Entry>, layout: Layout, sp: Spelling)
    requires Holds(lines, i, EntryLines(entries, indent, layout, sp)) && i <= |lines|
    requires Ends(lines, i + |EntryLines(entries, indent, layout, sp)|, indent)
    requires DistinctKeys(read + entries) && forall k | 0 <= k < |entries| :: BlockEntry(entries[k], sp)
    ensures Entries(lines, i, indent, read, sp.unquote)
      == Some(Read(Mapping(read + entries), i + |EntryLines(entries, indent, layout, sp)|))
    ensures ItemEntries(lines, i, indent, read, sp.unquote)
      == Some(Read(Mapping(read + entries), i + |EntryLines(entries, indent, layout, sp)|))
    decreases entries
  {
    hide *;
    if entries == [] {
      assert read + entries == read;
      NoLinesLeft(indent, layout, sp);
      EntriesEnd(lines, i, indent, read, sp);
    } else {
      var e, rest := entries[0], entries[1..];
      var below, more := Below(e.value, indent, layout, sp), EntryLines(rest, indent, layout, sp);
      EntryParts(entries, indent, layout, sp);
      HoldsParts(lines, i, Spaces(indent) + KeyText(e, sp), below, more);
      BelowFits(lines, i + 1, below);
      NextEntry(lines, i + 1 + |below|, indent, rest, layout, sp);
      ValueBack(lines, i + 1, indent, e, layout, sp);
      NewKey(read, entries);
      EntryStep(lines, i, indent, read, e, i + 1 + |below|, sp);
      assert read + [e] + rest == read + entries;
      EntriesBlockBack(lines, i + 1 + |below|, indent, read + [e], rest, layout, sp);
    }
  }

  /** What follows an entry's lines is the next entry's, or ends the block. */
  lemma NextEntry(lines: seq<string>, i: nat, indent: nat, entries: seq<Entry>, layout: Layout, sp: Spelling)
    requires Holds(lines, i, EntryLines(entries, indent, layout, sp))
    requires Ends(lines, i + |EntryLines(entries, indent, layout, sp)|, indent)
    requires forall k | 0 <= k < |entries| :: BlockEntry(entries[k], sp)
    ensures Ends(lines, i, indent + 1)
  {
    hide *;
    if entries == [] {
      NoLinesLeft(indent, layout, sp);
      EndsMore(lines, i, indent);
    } else {
      var e := entries[0];
      EntryParts(entries, indent, layout, sp);
      HoldsParts(lines, i, Spaces(indent) + KeyText(e, sp), Below(e.value, indent, layout, sp),
        EntryLines(entries[1..], indent, layout, sp));
      KeyFills(e, sp);
      FilledPeek(lines, i, indent, KeyText(e, sp));
      ShownEnds(lines, i, indent, KeyText(e, sp));
    }
  }

  lemma ShownEnds(lines: seq<string>, i: nat, indent: nat, text: string)
    requires i < |lines| && Shows(lines[i], indent, text)
    ensures Ends(lines, i, indent + 1)
  {
    hide Shows;
  }

  // ----- Items -----

  lemma NextItem(lines: seq<string>, i: nat, indent: nat, items: seq<Node>, layout: Layout, sp: Spelling)
    requires Holds(lines, i, ItemLines(items, indent, layout, sp))
    requires Ends(lines, i + |ItemLines(items, indent, layout, sp)|, indent)
    requires forall k | 0 <= k < |items| :: BlockTree(items[k], sp)
    ensures Ends(lines, i, indent + 1)
  {
    hide *;
    if items == [] {
      NoLinesLeft(indent, layout, sp);
      EndsMore(lines, i, indent);
    } else {
      var n := items[0];
      ItemParts(items, indent, layout, sp);
      HoldsParts(lines, i, Spaces(indent) + ItemText(n, layout, sp), BelowDash(n, indent, layout, sp),
        ItemLines(items[1..], indent, layout, sp));
      ItemFills(n, layout, sp);
      FilledPeek(lines, i, indent, ItemText(n, layout, sp));
      ShownEnds(lines, i, indent, ItemText(n, layout, sp));
    }
  }

  lemma {:induction false} ItemBack(lines: seq<string>, j: nat, indent: nat, n: Node, layout: Layout, sp: Spelling)
    requires BlockTree(n, sp) && Holds(lines, j, BelowDash(n, indent, layout, sp))
    requires Ends(lines, j + |BelowDash(n, indent, layout, sp)|, indent + 1)
    ensures j <= |lines|
    ensures Item(lines, j, indent, DashText(n, layout, sp), sp.unquote)
      == Some(Read(n, j + |BelowDash(n, indent, layout, sp)|))
    decreases n, 3
  {
    hide Ends, Holds, Item, BlockLines, BlockTree, RunText, DashText, BelowDash;
    BelowFits(lines, j, BelowDash(n, indent, layout, sp));
    if Compact(n, layout) {
      CompactBack(lines, j, indent, n, layout, sp);
    } else {
      PlainBack(lines, j, indent, n, layout, sp);
    }
  }

  lemma {:induction false} PlainBack(lines: seq<string>, j: nat, indent: nat, n: Node,
        layout: Layout, sp: Spelling)
    requires BlockTree(n, sp) && !Compact(n, layout) && Holds(lines, j, BelowDash(n, indent, layout, sp))
    requires j <= |lines|
    requires Ends(lines, j + |BelowDash(n, indent, layout, sp)|, indent + 1)
    ensures Item(lines, j, indent, DashText(n, layout, sp), sp.unquote)
      == Some(Read(n, j + |BelowDash(n, indent, layout, sp)|))
    decreases n, 2
  {
    hide BlockLines, BlockTree, Ends, Holds, Written, Sanitized;
    if Leaf(n) {
      LeafFills(n, sp);
      LeafWritten(n, sp);
      TrimNothing(Render(n, sp));
      ValueReadsBack(n, false, sp);
      LeafBelow(n, indent + 2, layout, sp);
      hide Render, PolicyValue, TrimSpace, SplitMapping, AddEntry, Nested, ItemEntries;
    } else {
      hide Nested, SplitMapping, PolicyValue, AddEntry, ItemEntries;
      NestedBack(lines, j, indent, n, layout, sp);
    }
  }

  /** A mapping begun on the line of its dash. */
  lemma {:induction false} CompactBack(lines: seq<string>, j: nat, indent: nat, n: Node,
        layout: Layout, sp: Spelling)
    requires BlockTree(n, sp) && Compact(n, layout) && Holds(lines, j, BelowDash(n, indent, layout, sp)) && j <= |lines|
    requires Ends(lines, j + |BelowDash(n, indent, layout, sp)|, indent + 1)
    ensures Item(lines, j, indent, DashText(n, layout, sp), sp.unquote)
      == Some(Read(n, j + |BelowDash(n, indent, layout, sp)|))
    decreases n, 2
  {
    hide *;
    CompactParts(n, indent, layout, sp);
    var e, rest := n.entries[0], n.entries[1..];
    var below, more := Below(e.value, indent + 2, layout, sp), EntryLines(rest, indent + 2, layout, sp);
    CompactEntries(n, sp);
    HoldsTwo(lines, j, below, more);
    var next := j + |below|;
    EndsMore(lines, next + |more|, indent + 1);
    NextEntry(lines, next, indent + 2, rest, layout, sp);
    ValueBack(lines, j, indent + 2, e, layout, sp);
    KeyFills(e, sp);
    NothingTaken(e);
    AddStep(lines, j, indent + 2, [], e, ValueText(e.value, sp), next, sp);
    assert [] + [e] == [e] && [e] + rest == n.entries;
    EntriesBlockBack(lines, next, indent + 2, [e], rest, layout, sp);
    ItemUnfold(lines, j, indent, KeyText(e, sp), Key(e.key, sp), ValueText(e.value, sp), sp);
  }

  lemma CompactParts(n: Node, indent: nat, layout: Layout, sp: Spelling)
    requires Compact(n, layout)
    ensures n.Mapping? && n.entries != [] && DashText(n, layout, sp) == KeyText(n.entries[0], sp)
    ensures BelowDash(n, indent, layout, sp)
      == Below(n.entries[0].value, indent + 2, layout, sp) + EntryLines(n.entries[1..], indent + 2, layout, sp)
  {
  }

  lemma CompactEntries(n: Node, sp: Spelling)
    requires BlockTree(n, sp) && n.Mapping? && n.entries != []
    ensures BlockEntry(n.entries[0], sp) && SpelledKey(n.entries[0].key, false, sp)
    ensures DistinctKeys([n.entries[0]] + n.entries[1..])
    ensures forall k | 0 <= k < |n.entries[1..]| :: BlockEntry(n.entries[1..][k], sp)
  {
    assert [n.entries[0]] + n.entries[1..] == n.entries;
  }

  lemma NothingTaken(e: Entry)
    ensures !HasKey([], e.key)
  {
  }

  lemma HoldsTwo(lines: seq<string>, i: nat, first: seq<string>, rest: seq<string>)
    requires Holds(lines, i, first + rest)
    ensures Holds(lines, i, first) && Holds(lines, i + |first|, rest) && i + |first| + |rest| <= |lines|
  {
    var part := first + rest;
    forall k | 0 <= k < |first| ensures lines[i + k] == first[k] { assert lines[i + k] == part[k]; }
    forall k | 0 <= k < |rest| ensures lines[i + |first| + k] == rest[k] {
      assert lines[i + (|first| + k)] == part[|first| + k];
    }
  }

  lemma ItemUnfold(lines: seq<string>, j: nat, indent: nat, text: string, key: string, value: string, sp: Spelling)
    requires j <= |lines| && Fills(text) && SplitMapping(text) == Some((key, value))
    ensures Item(lines, j, indent, text, sp.unquote)
      == match AddEntry(lines, j, indent + 2, [], key, value, sp.unquote)
         case None => None
         case Some(first) => ItemEntries(lines, first.next, indent + 2, first.entries, sp.unquote)
  {
    TrimNothing(text);
    hide Sanitized, SplitMapping, AddEntry, ItemEntries, TrimSpace;
  }

  lemma ItemStep(lines: seq<string>, i: nat, indent: nat, read: seq<Node>, n: Node, next: nat,
        layout: Layout, sp: Spelling)
    requires i < |lines| && lines[i] == Spaces(indent) + ItemText(n, layout, sp) && BlockTree(n, sp)
    requires i < next <= |lines|
    requires Item(lines, i + 1, indent, DashText(n, layout, sp), sp.unquote) == Some(Read(n, next))
    ensures Items(lines, i, indent, read, sp.unquote) == Items(lines, next, indent, read + [n], sp.unquote)
  {
    hide Items, ReadLine, IsItem, SequenceText, Item, ItemText, DashText, Spaces, BlockTree, PeekFrom, Fills, Shows;
    ItemFills(n, layout, sp);
    FilledPeek(lines, i, indent, ItemText(n, layout, sp));
    ItemsUnfold(lines, i, indent, read, ItemText(n, layout, sp), sp);
  }

  lemma {:induction false} ItemsBlockBack(lines: seq<string>, i: nat, indent: nat, read: seq<Node>, items: seq<Node>,
        layout: Layout, sp: Spelling)
    requires Holds(lines, i, ItemLines(items, indent, layout, sp)) && i <= |lines|
    requires Ends(lines, i + |ItemLines(items, indent, layout, sp)|, indent)
    requires forall k | 0 <= k < |items| :: BlockTree(items[k], sp)
    ensures Items(lines, i, indent, read, sp.unquote)
      == Some(Read(Sequence(read + items), i + |ItemLines(items, indent, layout, sp)|))
    decreases items
  {
    hide *;
    if items == [] {
      assert read + items == read;
      NoLinesLeft(indent, layout, sp);
      ItemsEnd(lines, i, indent, read, sp);
    } else {
      var n, rest := items[0], items[1..];
      var below, more := BelowDash(n, indent, layout, sp), ItemLines(rest, indent, layout, sp);
      ItemParts(items, indent, layout, sp);
      HoldsParts(lines, i, Spaces(indent) + ItemText(n, layout, sp), below, more);
      BelowFits(lines, i + 1, below);
      NextItem(lines, i + 1 + |below|, indent, rest, layout, sp);
      ItemBack(lines, i + 1, indent, n, layout, sp);
      ItemStep(lines, i, indent, read, n, i + 1 + |below|, layout, sp);
      assert read + [n] + rest == read + items;
      ItemsBlockBack(lines, i + 1 + |below|, indent, read + [n], rest, layout, sp);
    }
  }

  // ----- What the block parser refuses -----

  /** After an entry whose value is on its line, a line indented more is refused, and so
      is an item. */
  lemma MisplacedRefused(lines: seq<string>, i: nat, indent: nat, read: seq<Entry>, e: Entry, more: nat, text: string,
                         sp: Spelling)
    requires i + 1 < |lines| && lines[i] == Spaces(indent) + KeyText(e, sp) && BlockEntry(e, sp) && !IsText(e.value)
    requires Leaf(e.value) && !HasKey(read, e.key) && Shows(lines[i + 1], more, text)
    requires indent < more || (indent == more && IsItem(text))
    ensures Entries(lines, i, indent, read, sp.unquote) == None
  {
    hide BlockEntry, KeyText, Spaces, IsItem, ReadLine, IsEmptyLine, LeadingSpaces, WithoutReturn, HasKey, Written;
    ValueWritten(e, sp);
    LineValue(lines, i + 1, indent, e.key, e.value, sp);
    hide EntryValue, Entries, Render;
    EntryStep(lines, i, indent, read, e, i + 1, sp);
    PeekAt(lines, i + 1, more, text);
    EntriesStop(lines, i + 1, indent, read + [e], sp);
  }

  lemma EntriesStop(lines: seq<string>, i: nat, indent: nat, read: seq<Entry>, sp: Spelling)
    requires i < |lines| && PeekFrom(lines, i).At?
    requires var p := PeekFrom(lines, i); indent < p.indent || (indent == p.indent && IsItem(p.text))
    ensures Entries(lines, i, indent, read, sp.unquote) == None
  {
    hide PeekFrom, IsItem, SplitMapping, AddEntry;
  }

  /** A key that is there already is refused. */
  lemma RepeatedKeyRefused(lines: seq<string>, i: nat, indent: nat, read: seq<Entry>, e: Entry, sp: Spelling)
    requires i < |lines| && lines[i] == Spaces(indent) + KeyText(e, sp) && BlockEntry(e, sp) && HasKey(read, e.key)
    ensures Entries(lines, i, indent, read, sp.unquote) == None
  {
    hide Entries, ItemEntries, ReadLine, IsItem, SplitMapping, SpelledKey, HasKey, EntryValue, KeyText, Key,
      ValueText, Spaces, RunText, BlockTree, PeekFrom, Fills, Shows, PlainLine, DecodeKey;
    KeyFills(e, sp);
    FilledPeek(lines, i, indent, KeyText(e, sp));
    EntriesUnfold(lines, i, indent, read, KeyText(e, sp), Key(e.key, sp), ValueText(e.value, sp), sp);
    KeyDecodes(e.key, sp);
  }

  /** A tree written in block style is read back as that tree, however deeply its
      mappings and sequences are nested, whichever of its items begin on the line of
      their dash, and with the text of its `run` keys. */
  lemma DocumentOfBlock(n: Node, layout: Layout, sp: Spelling)
    requires BlockTree(n, sp) && (n.Mapping? || (n.Sequence? && n.items != []))
    ensures Document(BlockLines(n, 0, layout, sp), sp.unquote) == Some(n)
  {
    hide Block, BlockTree, ReadLine, PeekFrom, EntryLines, ItemLines, Shows;
    var lines := BlockLines(n, 0, layout, sp);
    PastEnd(lines);
    if Leaf(n) {
      LeafBelow(n, 0, layout, sp);
    } else {
      assert Holds(lines, 0, lines);
      FirstLine(lines, 0, 0, n, layout, sp);
      BlockBack(lines, 0, 0, n, layout, sp);
    }
  }

  lemma PastEnd(lines: seq<string>)
    ensures PeekFrom(lines, |lines|) == NoLine
  {
  }
}
