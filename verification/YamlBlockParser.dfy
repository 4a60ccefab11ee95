/** The block parser as it runs: an index moving over the lines. */
module YamlBlockParser {
  import opened Wrappers
  import opened YamlText
  import opened YamlFlow
  import opened YamlFlowParser
  import opened YamlBlock

  /** A value read by the flow parser over the whole text. */
  method ReadPolicyValue(text: string, allowShell: bool, unquote: Unquoter) returns (node: Option<Node>)
    ensures node == PolicyValue(text, allowShell, unquote)
  {
    hide ParseValue, TrimSpace, UnsafeScalar;
    var t := TrimSpace(text);
    if t == "" { return Some(Empty); }
    if t[0] == '{' || t[0] == '[' || IsQuote(t[0]) {
      var parser := new FlowParser(t, unquote);
      node := parser.Value("");
      if node.None? { return None; }
      parser.SkipSpace();
      if parser.index != |parser.text| { return None; }
      return node;
    }
    if !allowShell && UnsafeScalar(t) { return None; }
    node := Some(Scalar(t, Plain));
  }

  ghost predicate Agrees(expected: Option<Read>, node: Option<Node>, index: nat) {
    match expected
    case None => node == None
    case Some(r) => node == Some(r.node) && index == r.next
  }

  class BlockParser {
    const lines: seq<string>
    const unquote: Unquoter
    var index: nat

    ghost predicate Valid()
      reads this
    {
      index <= |lines|
    }

    constructor (lines: seq<string>, unquote: Unquoter)
      ensures Valid() && index == 0 && this.lines == lines && this.unquote == unquote
    {
      this.lines, this.unquote, index := lines, unquote, 0;
    }

    method CountIndent(raw: string) returns (indent: Option<nat>)
      ensures indent == Indent(raw)
    {
      var n := 0;
      assert raw[0..] == raw;
      while n < |raw| && (raw[n] == ' ' || raw[n] == '\t')
        invariant n <= |raw| && Indent(raw) == Plus(n, Indent(raw[n..]))
      {
        assert raw[n..][1..] == raw[n + 1..];
        if raw[n] == '\t' { return None; }
        n := n + 1;
      }
      indent := Some(n);
    }

    method ExamineLine(line: string) returns (r: LineRead)
      ensures r == ReadLine(line)
    {
      hide Sanitized, TrimSpace, Indent;
      var raw := WithoutReturn(line);
      var indent := CountIndent(raw);
      if indent.None? { return BadLine; }
      var text := SanitizeLine(raw[indent.value..]);
      if text.None? { return BadLine; }
      if TrimSpace(text.value) == "" { return BlankLine; }
      r := TextLine(indent.value, TrimSpace(text.value));
    }

    method PeekSignificant() returns (p: Peek)
      requires Valid()
      ensures p == PeekFrom(lines, index)
    {
      hide ReadLine;
      var i := index;
      while i < |lines|
        invariant index <= i <= |lines| && PeekFrom(lines, index) == PeekFrom(lines, i)
      {
        var r := ExamineLine(lines[i]);
        if r.BadLine? { return Broken; }
        if r.TextLine? { return At(i, r.indent, r.text); }
        i := i + 1;
      }
      p := NoLine;
    }

    method ParseBlock(indent: nat) returns (node: Option<Node>)
      requires Valid()
      modifies this
      ensures Valid() && old(index) <= index
      ensures Agrees(Block(lines, old(index), indent, unquote), node, index)
      decreases |lines| - index, 2
    {
      hide Entries, Items, IsItem, PeekFrom;
      var p := PeekSignificant();
      if !p.At? || p.indent != indent { return None; }
      if IsItem(p.text) {
        node := ParseBlockSequence(indent);
      } else {
        node := ParseBlockMapping(indent);
      }
    }

    method ParseBlockMapping(indent: nat) returns (node: Option<Node>)
      requires Valid()
      modifies this
      ensures Valid() && old(index) <= index
      ensures Agrees(Entries(lines, old(index), indent, [], unquote), node, index)
      decreases |lines| - index, 1
    {
      hide IsItem, PeekFrom, SplitMapping, AddEntry, HasKey, Entries;
      var entries: seq<Entry> := [];
      var seen: set<string> := {};
      NoKeys();
      while true
        invariant old(index) <= index <= |lines|
        invariant Entries(lines, index, indent, entries, unquote) == Entries(lines, old(index), indent, [], unquote)
        invariant forall k :: k in seen <==> HasKey(entries, k)
        decreases |lines| - index
      {
        MappingRound(lines, index, indent, entries, unquote);
        var p := PeekSignificant();
        if p.Broken? { return None; }
        if p.NoLine? || p.indent < indent { break; }
        if p.indent > indent || IsItem(p.text) { return None; }
        var split := SplitLine(p.text);
        if split.None? { return None; }
        index := p.index + 1;
        var e := AppendEntry(entries, seen, indent, split.value.0, split.value.1);
        if e.None? { return None; }
        KeyAdded(entries, e.value);
        seen := seen + {e.value.key};
        entries := entries + [e.value];
      }
      node := Some(Mapping(entries));
    }

    method ParseBlockSequence(indent: nat) returns (node: Option<Node>)
      requires Valid()
      modifies this
      ensures Valid() && old(index) <= index
      ensures Agrees(Items(lines, old(index), indent, [], unquote), node, index)
      decreases |lines| - index, 1
    {
      hide IsItem, PeekFrom, Item, SequenceText, Items;
      var items: seq<Node> := [];
      while true
        invariant old(index) <= index <= |lines|
        invariant Items(lines, index, indent, items, unquote) == Items(lines, old(index), indent, [], unquote)
        decreases |lines| - index
      {
        SequenceRound(lines, index, indent, items, unquote);
        var p := PeekSignificant();
        if p.Broken? { return None; }
        if p.NoLine? || p.indent < indent { break; }
        if p.indent != indent { return None; }
        if !IsItem(p.text) { break; }
        index := p.index + 1;
        var item := ParseItem(indent, SequenceText(p.text));
        if item.None? { return None; }
        items := items + [item.value];
      }
      node := Some(Sequence(items));
    }

    method ParseItem(indent: nat, rest: string) returns (node: Option<Node>)
      requires Valid()
      modifies this
      ensures Valid() && old(index) <= index
      ensures Agrees(Item(lines, old(index), indent, rest, unquote), node, index)
      decreases |lines| - index, 6
    {
      hide PeekFrom, SplitMapping, PolicyValue, AddEntry, ItemEntries, Nested, TrimSpace, HasKey;
      if TrimSpace(rest) == "" {
        node := ParseNested(indent);
        return;
      }
      var split := SplitLine(rest);
      if split.None? {
        node := ReadPolicyValue(rest, false, unquote);
        return;
      }
      node := ParseSequenceMappingItem(indent + 2, split.value.0, split.value.1);
    }

    method ParseSequenceMappingItem(indent: nat, firstKey: string, firstValue: string) returns (node: Option<Node>)
      requires Valid()
      modifies this
      ensures Valid() && old(index) <= index
      ensures match AddEntry(lines, old(index), indent, [], firstKey, firstValue, unquote)
        case None => node == None
        case Some(first) => Agrees(ItemEntries(lines, first.next, indent, first.entries, unquote), node, index)
      decreases |lines| - index, 5
    {
      hide IsItem, PeekFrom, SplitMapping, AddEntry, HasKey, ItemEntries;
      NoKeys();
      var first := AppendEntry([], {}, indent, firstKey, firstValue);
      if first.None? { return None; }
      KeyAdded([], first.value);
      var entries := [] + [first.value];
      var seen := {first.value.key};
      ghost var start := index;
      while true
        invariant old(index) <= start <= index <= |lines|
        invariant ItemEntries(lines, index, indent, entries, unquote)
          == ItemEntries(lines, start, indent, [] + [first.value], unquote)
        invariant forall k :: k in seen <==> HasKey(entries, k)
        decreases |lines| - index
      {
        ItemMappingRound(lines, index, indent, entries, unquote);
        var p := PeekSignificant();
        if p.Broken? { return None; }
        if p.NoLine? || p.indent < indent { break; }
        if p.indent > indent { return None; }
        if IsItem(p.text) { break; }
        var split := SplitLine(p.text);
        if split.None? { return None; }
        index := p.index + 1;
        var e := AppendEntry(entries, seen, indent, split.value.0, split.value.1);
        if e.None? { return None; }
        KeyAdded(entries, e.value);
        seen := seen + {e.value.key};
        entries := entries + [e.value];
      }
      node := Some(Mapping(entries));
    }

    method AppendEntry(ghost entries: seq<Entry>, seen: set<string>, indent: nat, keyText: string, valueText: string)
      returns (e: Option<Entry>)
      requires Valid() && forall k :: k in seen <==> HasKey(entries, k)
      modifies this
      ensures Valid() && old(index) <= index
      ensures match AddEntry(lines, old(index), indent, entries, keyText, valueText, unquote)
        case None => e == None
        case Some(more) => e.Some? && more.entries == entries + [e.value] && index == more.next
      decreases |lines| - index, 4
    {
      hide DecodeKey, UnsafeKey, HasKey, EntryValue;
      var key := DecodeKey(keyText, unquote);
      if key.None? || UnsafeKey(key.value) || key.value in seen { return None; }
      var value := ParseMappingValue(key.value, valueText, indent);
      if value.None? { return None; }
      e := Some(Entry(key.value, value.value));
    }

    method ParseMappingValue(key: string, text: string, indent: nat) returns (node: Option<Node>)
      requires Valid()
      modifies this
      ensures Valid() && old(index) <= index
      ensures Agrees(EntryValue(lines, old(index), indent, key, text, unquote), node, index)
      decreases |lines| - index, 3
    {
      hide TrimSpace, PolicyValue, Nested, RunScalar, RunEnd;
      var t := TrimSpace(text);
      if IsIndicator(t) {
        if key != "run" { return None; }
        var scalar := ParseRunBlockScalar(indent, t);
        return Some(scalar);
      }
      if t != "" {
        node := ReadPolicyValue(t, key == "run", unquote);
        return;
      }
      node := ParseNested(indent);
    }

    method ParseNested(indent: nat) returns (node: Option<Node>)
      requires Valid()
      modifies this
      ensures Valid() && old(index) <= index
      ensures Agrees(Nested(lines, old(index), indent, unquote), node, index)
      decreases |lines| - index, 3, 0
    {
      hide PeekFrom, Block;
      var next := PeekSignificant();
      if next.Broken? { return None; }
      if next.NoLine? || next.indent <= indent { return Some(Empty); }
      node := ParseBlock(next.indent);
    }

    method ParseRunBlockScalar(parentIndent: nat, indicator: string) returns (node: Node)
      requires Valid()
      modifies this
      ensures Valid() && index == RunEnd(lines, old(index), parentIndent)
      ensures node == RunScalar(lines[old(index)..index], parentIndent, indicator)
    {
      var start := index;
      var end := start;
      var least: Option<nat> := None;
      hide IsEmptyLine, LeadingSpaces, WithoutReturn, MinIndent;
      MinIndentNone(lines, start);
      while end < |lines|
        invariant start <= end <= |lines| && RunEnd(lines, start, parentIndent) == RunEnd(lines, end, parentIndent)
        invariant least == MinIndent(lines[start..end])
      {
        MinIndentNext(lines, start, end);
        if !IsEmptyLine(lines[end]) {
          var indent := LeadingSpaces(WithoutReturn(lines[end]));
          if indent <= parentIndent { break; }
          if least.None? || indent < least.value { least := Some(indent); }
        }
        end := end + 1;
      }
      var indent := if least.None? then parentIndent + 1 else least.value;
      var parts := CutParts(start, end, indent);
      index := end;
      node := Scalar(Join(parts, if indicator != "" && indicator[0] == '>' then " " else "\n"), BlockText);
    }

    method CutParts(start: nat, end: nat, indent: nat) returns (parts: seq<string>)
      requires start <= end <= |lines|
      ensures parts == CutLines(lines[start..end], indent)
    {
      parts := [];
      for i := start to end
        invariant parts == CutLines(lines[start..i], indent)
      {
        var raw := WithoutReturn(lines[i]);
        var part := "";
        if TrimSpace(raw) != "" {
          part := if |raw| >= indent then raw[indent..] else raw;
        }
        assert part == CutLine(lines[i], indent);
        assert lines[start..i + 1] == lines[start..i] + [lines[i]];
        parts := parts + [part];
      }
    }
  }

  /** Reads a whole document. */
  method ParsePolicyYaml(lines: seq<string>, unquote: Unquoter) returns (root: Option<Node>)
    ensures root == Document(lines, unquote)
    ensures root.Some? ==> SafeTree(root.value, false)
  {
    var parser := new BlockParser(lines, unquote);
    hide PeekFrom, Block, SafeTree;
    if Document(lines, unquote).Some? { DocumentSafe(lines, unquote); }
    EmptyMappingSafe();
    var p := parser.PeekSignificant();
    if p.Broken? { return None; }
    if p.NoLine? { return Some(Mapping([])); }
    if p.indent != 0 { return None; }
    root := parser.ParseBlock(0);
    if root.None? { return None; }
    var rest := parser.PeekSignificant();
    if !rest.NoLine? { return None; }
  }

  lemma MinIndentNone(lines: seq<string>, start: nat)
    requires start <= |lines|
    ensures MinIndent(lines[start..start]) == None
  {
  }

  lemma MinIndentNext(lines: seq<string>, start: nat, end: nat)
    requires start <= end < |lines|
    ensures var rest, own := MinIndent(lines[start..end]), LeadingSpaces(WithoutReturn(lines[end]));
      MinIndent(lines[start..end + 1]) == if IsEmptyLine(lines[end]) then rest else if rest.None? || own < rest.value
        then Some(own) else rest
  {
    var more := lines[start..end + 1];
    assert more == lines[start..end] + [lines[end]];
    assert more[..|more| - 1] == lines[start..end];
    hide IsEmptyLine, LeadingSpaces, WithoutReturn;
  }

  lemma EmptyMappingSafe()
    ensures SafeTree(Mapping([]), false)
  {
  }

  ghost function SplitOrNone(p: Peek): Option<(string, string)> {
    if p.At? then SplitMapping(p.text) else None
  }

  /** What one round of the mapping loop does. */
  lemma MappingRound(lines: seq<string>, i: nat, indent: nat, entries: seq<Entry>, unquote: Unquoter)
    requires i <= |lines|
    ensures var p := PeekFrom(lines, i);
      Entries(lines, i, indent, entries, unquote) ==
        if p.Broken? then None
        else if p.NoLine? || p.indent < indent then Some(Read(Mapping(entries), i))
        else if p.indent > indent || IsItem(p.text) || SplitOrNone(p).None? then None
        else
          var (key, rest) := SplitOrNone(p).value;
          match AddEntry(lines, p.index + 1, indent, entries, key, rest, unquote)
          case None => None
          case Some(more) => Entries(lines, more.next, indent, more.entries, unquote)
  {
    hide IsItem, PeekFrom, SplitMapping, AddEntry;
  }

  lemma ItemMappingRound(lines: seq<string>, i: nat, indent: nat, entries: seq<Entry>, unquote: Unquoter)
    requires i <= |lines|
    ensures var p := PeekFrom(lines, i);
      ItemEntries(lines, i, indent, entries, unquote) ==
        if p.Broken? then None
        else if p.NoLine? || p.indent < indent then Some(Read(Mapping(entries), i))
        else if p.indent > indent then None
        else if IsItem(p.text) then Some(Read(Mapping(entries), i))
        else if SplitOrNone(p).None? then None
        else
          var (key, rest) := SplitOrNone(p).value;
          match AddEntry(lines, p.index + 1, indent, entries, key, rest, unquote)
          case None => None
          case Some(more) => ItemEntries(lines, more.next, indent, more.entries, unquote)
  {
    hide IsItem, PeekFrom, SplitMapping, AddEntry;
  }

  lemma SequenceRound(lines: seq<string>, i: nat, indent: nat, items: seq<Node>, unquote: Unquoter)
    requires i <= |lines|
    ensures var p := PeekFrom(lines, i);
      Items(lines, i, indent, items, unquote) ==
        if p.Broken? then None
        else if p.NoLine? || p.indent < indent then Some(Read(Sequence(items), i))
        else if p.indent != indent then None
        else if !IsItem(p.text) then Some(Read(Sequence(items), i))
        else
          match Item(lines, p.index + 1, indent, SequenceText(p.text), unquote)
          case None => None
          case Some(item) => Items(lines, item.next, indent, items + [item.node], unquote)
  {
    hide IsItem, PeekFrom, SequenceText, Item;
  }
}
