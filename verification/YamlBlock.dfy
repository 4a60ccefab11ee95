/** The block parser of the workflow policy reader: what a sequence of lines
    means. Positions are line indices; every nested parse starts past a line that
    has been consumed. */
module YamlBlock {
  import opened Wrappers
  import opened YamlText
  import opened YamlFlow

  // ----- Lines -----

  datatype LineRead = BlankLine | BadLine | TextLine(indent: nat, text: string)

  function WithoutReturn(raw: string): string {
    if raw != "" && raw[|raw| - 1] == '\r' then raw[..|raw| - 1] else raw
  }

  /** The number of leading spaces, or nothing if a tab is among the leading blanks. */
  function Indent(s: string): (r: Option<nat>)
    ensures r.Some? ==> r.value <= |s|
  {
    if s == "" || (s[0] != ' ' && s[0] != '\t') then Some(0)
    else if s[0] == '\t' then None
    else Plus(1, Indent(s[1..]))
  }

  function ReadLine(line: string): LineRead {
    var raw := WithoutReturn(line);
    match Indent(raw)
    case None => BadLine
    case Some(n) =>
      match Sanitized(raw[n..], true, Outside, [])
      case None => BadLine
      case Some(k) =>
        var text := TrimSpace(raw[n..][..k]);
        if text == "" then BlankLine else TextLine(n, text)
  }

  datatype Peek = NoLine | Broken | At(index: nat, indent: nat, text: string)

  /** The next line that says something. */
  function PeekFrom(lines: seq<string>, i: nat): (p: Peek)
    ensures p.At? ==> i <= p.index < |lines|
    decreases |lines| - i
  {
    if i >= |lines| then NoLine
    else
      match ReadLine(lines[i])
      case BadLine => Broken
      case BlankLine => PeekFrom(lines, i + 1)
      case TextLine(indent, text) => At(i, indent, text)
  }

  function SequenceText(text: string): string {
    var t := TrimSpace(text);
    if |t| >= 2 && t[0] == '-' && t[1] == ' ' then TrimSpace(t[2..]) else ""
  }

  predicate IsItem(text: string) { SequenceText(text) != "" || TrimSpace(text) == "-" }

  predicate IsIndicator(s: string) { s == "|" || s == "|-" || s == "|+" || s == ">" || s == ">-" || s == ">+" }

  // ----- Block scalars -----

  function LeadingSpaces(s: string): (n: nat)
    ensures n <= |s|
  {
    if s != "" && s[0] == ' ' then 1 + LeadingSpaces(s[1..]) else 0
  }

  predicate IsEmptyLine(line: string) { TrimSpace(WithoutReturn(line)) == "" }

  /** Where a block scalar ends: at the first line that says something and is not
      indented more than its parent. */
  function RunEnd(lines: seq<string>, i: nat, parentIndent: nat): (end: nat)
    requires i <= |lines|
    ensures i <= end <= |lines|
    decreases |lines| - i
  {
    if i == |lines| then i
    else if IsEmptyLine(lines[i]) || LeadingSpaces(WithoutReturn(lines[i])) > parentIndent
      then RunEnd(lines, i + 1, parentIndent)
    else i
  }

  /** The smallest indentation among the lines that say something. */
  function MinIndent(lines: seq<string>): Option<nat> {
    if lines == [] then None
    else
      var rest := MinIndent(lines[..|lines| - 1]);
      var last := lines[|lines| - 1];
      if IsEmptyLine(last) then rest
      else if rest.None? || LeadingSpaces(WithoutReturn(last)) < rest.value
        then Some(LeadingSpaces(WithoutReturn(last)))
      else rest
  }

  function CutLine(line: string, indent: nat): string {
    var raw := WithoutReturn(line);
    if IsEmptyLine(line) then "" else if |raw| >= indent then raw[indent..] else raw
  }

  function CutLines(lines: seq<string>, indent: nat): seq<string> {
    seq(|lines|, i requires 0 <= i < |lines| => CutLine(lines[i], indent))
  }

  function Join(parts: seq<string>, separator: string): string {
    if parts == [] then ""
    else if |parts| == 1 then parts[0]
    else Join(parts[..|parts| - 1], separator) + separator + parts[|parts| - 1]
  }

  function RunScalar(lines: seq<string>, parentIndent: nat, indicator: string): Node {
    var least := MinIndent(lines);
    var indent := if least.None? then parentIndent + 1 else least.value;
    Scalar(Join(CutLines(lines, indent), if indicator != "" && indicator[0] == '>' then " " else "\n"), BlockText)
  }

  // ----- Blocks -----

  /** A node and the line after it. */
  datatype Read = Read(node: Node, next: nat)

  datatype ReadEntries = ReadEntries(entries: seq<Entry>, next: nat)

  function Block(lines: seq<string>, i: nat, indent: nat, unquote: Unquoter): (r: Option<Read>)
    requires i <= |lines|
    ensures r.Some? ==> i <= r.value.next <= |lines|
    decreases |lines| - i, 2
  {
    var p := PeekFrom(lines, i);
    if !p.At? || p.indent != indent then None
    else if IsItem(p.text) then Items(lines, i, indent, [], unquote)
    else Entries(lines, i, indent, [], unquote)
  }

  /** The rest of a block mapping, after some entries. */
  function Entries(lines: seq<string>, i: nat, indent: nat, entries: seq<Entry>, unquote: Unquoter): (r: Option<Read>)
    requires i <= |lines|
    ensures r.Some? ==> i <= r.value.next <= |lines|
    decreases |lines| - i, 1
  {
    var p := PeekFrom(lines, i);
    if p.Broken? then None
    else if p.NoLine? || p.indent < indent then Some(Read(Mapping(entries), i))
    else if p.indent > indent || IsItem(p.text) then None
    else
      match SplitMapping(p.text)
      case None => None
      case Some((key, rest)) =>
        match AddEntry(lines, p.index + 1, indent, entries, key, rest, unquote)
        case None => None
        case Some(more) => Entries(lines, more.next, indent, more.entries, unquote)
  }

  /** The rest of a block sequence, after some items. */
  function Items(lines: seq<string>, i: nat, indent: nat, items: seq<Node>, unquote: Unquoter): (r: Option<Read>)
    requires i <= |lines|
    ensures r.Some? ==> i <= r.value.next <= |lines|
    decreases |lines| - i, 1
  {
    var p := PeekFrom(lines, i);
    if p.Broken? then None
    else if p.NoLine? || p.indent < indent then Some(Read(Sequence(items), i))
    else if p.indent != indent then None
    else if !IsItem(p.text) then Some(Read(Sequence(items), i))
    else
      match Item(lines, p.index + 1, indent, SequenceText(p.text), unquote)
      case None => None
      case Some(item) => Items(lines, item.next, indent, items + [item.node], unquote)
  }

  /** One item, given the text after its dash. The line's text starts with the
      dash, so a mapping item is indented by two more than the line. */
  function Item(lines: seq<string>, j: nat, indent: nat, rest: string, unquote: Unquoter): (r: Option<Read>)
    requires j <= |lines|
    ensures r.Some? ==> j <= r.value.next <= |lines|
    decreases |lines| - j, 6
  {
    if TrimSpace(rest) == "" then Nested(lines, j, indent, unquote)
    else
      match SplitMapping(rest)
      case None =>
        var node := PolicyValue(rest, false, unquote);
        if node.None? then None else Some(Read(node.value, j))
      case Some((key, value)) =>
        match AddEntry(lines, j, indent + 2, [], key, value, unquote)
        case None => None
        case Some(first) => ItemEntries(lines, first.next, indent + 2, first.entries, unquote)
  }

  /** The rest of a mapping inside a sequence item. */
  function ItemEntries(lines: seq<string>, i: nat, indent: nat, entries: seq<Entry>,
        unquote: Unquoter): (r: Option<Read>)
    requires i <= |lines|
    ensures r.Some? ==> i <= r.value.next <= |lines|
    decreases |lines| - i, 1
  {
    var p := PeekFrom(lines, i);
    if p.Broken? then None
    else if p.NoLine? || p.indent < indent then Some(Read(Mapping(entries), i))
    else if p.indent > indent then None
    else if IsItem(p.text) then Some(Read(Mapping(entries), i))
    else
      match SplitMapping(p.text)
      case None => None
      case Some((key, rest)) =>
        match AddEntry(lines, p.index + 1, indent, entries, key, rest, unquote)
        case None => None
        case Some(more) => ItemEntries(lines, more.next, indent, more.entries, unquote)
  }

  /** One more entry, unless its key is unreadable, unsafe or taken. */
  function AddEntry(lines: seq<string>, j: nat, indent: nat, entries: seq<Entry>, keyText: string, valueText: string,
        unquote: Unquoter): (r: Option<ReadEntries>)
    requires j <= |lines|
    ensures r.Some? ==> j <= r.value.next <= |lines|
    decreases |lines| - j, 4
  {
    var key := DecodeKey(keyText, unquote);
    if key.None? || UnsafeKey(key.value) || HasKey(entries, key.value) then None
    else
      match EntryValue(lines, j, indent, key.value, valueText, unquote)
      case None => None
      case Some(v) => Some(ReadEntries(entries + [Entry(key.value, v.node)], v.next))
  }

  /** The value after a key: on the line, a block scalar, nested below, or nothing. */
  function EntryValue(lines: seq<string>, j: nat, indent: nat, key: string, text: string,
        unquote: Unquoter): (r: Option<Read>)
    requires j <= |lines|
    ensures r.Some? ==> j <= r.value.next <= |lines|
    decreases |lines| - j, 3
  {
    var t := TrimSpace(text);
    if IsIndicator(t) then
      if key != "run" then None
      else
        var end := RunEnd(lines, j, indent);
        Some(Read(RunScalar(lines[j..end], indent, t), end))
    else if t != "" then
      var node := PolicyValue(t, key == "run", unquote);
      if node.None? then None else Some(Read(node.value, j))
    else Nested(lines, j, indent, unquote)
  }

  /** A block indented more than its parent, or nothing. */
  function Nested(lines: seq<string>, j: nat, indent: nat, unquote: Unquoter): (r: Option<Read>)
    requires j <= |lines|
    ensures r.Some? ==> j <= r.value.next <= |lines|
    decreases |lines| - j, 3, 0
  {
    var q := PeekFrom(lines, j);
    if q.Broken? then None
    else if q.NoLine? || q.indent <= indent then Some(Read(Empty, j))
    else Block(lines, j, q.indent, unquote)
  }

  function Document(lines: seq<string>, unquote: Unquoter): Option<Node> {
    var p := PeekFrom(lines, 0);
    if p.Broken? then None
    else if p.NoLine? then Some(Mapping([]))
    else if p.indent != 0 then None
    else
      var root := Block(lines, 0, 0, unquote);
      if root.None? || !PeekFrom(lines, root.value.next).NoLine? then None else Some(root.value.node)
  }

  // ----- Accepted trees are safe -----

  lemma {:induction false} BlockSafe(lines: seq<string>, i: nat, indent: nat, unquote: Unquoter)
    requires i <= |lines| && Block(lines, i, indent, unquote).Some?
    ensures SafeTree(Block(lines, i, indent, unquote).value.node, false)
    decreases |lines| - i, 2
  {
    var p := PeekFrom(lines, i);
    if IsItem(p.text) { ItemsSafe(lines, i, indent, [], unquote); } else { EntriesSafe(lines, i, indent, [], unquote); }
  }

  lemma {:induction false} EntriesSafe(lines: seq<string>, i: nat, indent: nat, entries: seq<Entry>, unquote: Unquoter)
    requires i <= |lines| && SafeTree(Mapping(entries), false) && Entries(lines, i, indent, entries, unquote).Some?
    ensures SafeTree(Entries(lines, i, indent, entries, unquote).value.node, false)
    decreases |lines| - i, 1
  {
    hide SafeTree, SplitMapping, IsItem, AddEntry;
    var p := PeekFrom(lines, i);
    if p.At? && p.indent >= indent {
      var (key, rest) := SplitMapping(p.text).value;
      AddEntrySafe(lines, p.index + 1, indent, entries, key, rest, unquote);
      var more := AddEntry(lines, p.index + 1, indent, entries, key, rest, unquote).value;
      EntriesSafe(lines, more.next, indent, more.entries, unquote);
    }
  }

  lemma {:induction false} ItemEntriesSafe(lines: seq<string>, i: nat, indent: nat,
        entries: seq<Entry>, unquote: Unquoter)
    requires i <= |lines| && SafeTree(Mapping(entries), false) && ItemEntries(lines, i, indent, entries, unquote).Some?
    ensures SafeTree(ItemEntries(lines, i, indent, entries, unquote).value.node, false)
    decreases |lines| - i, 1
  {
    hide SafeTree, SplitMapping, IsItem, AddEntry;
    var p := PeekFrom(lines, i);
    if p.At? && p.indent >= indent && !IsItem(p.text) {
      var (key, rest) := SplitMapping(p.text).value;
      AddEntrySafe(lines, p.index + 1, indent, entries, key, rest, unquote);
      var more := AddEntry(lines, p.index + 1, indent, entries, key, rest, unquote).value;
      ItemEntriesSafe(lines, more.next, indent, more.entries, unquote);
    }
  }

  lemma ItemAddedSafe(items: seq<Node>, n: Node)
    requires SafeTree(Sequence(items), false) && SafeTree(n, false)
    ensures SafeTree(Sequence(items + [n]), false)
  {
  }

  lemma {:induction false} ItemsSafe(lines: seq<string>, i: nat, indent: nat, items: seq<Node>, unquote: Unquoter)
    requires i <= |lines| && SafeTree(Sequence(items), false) && Items(lines, i, indent, items, unquote).Some?
    ensures SafeTree(Items(lines, i, indent, items, unquote).value.node, false)
    decreases |lines| - i, 1
  {
    hide IsItem, Item, SafeTree;
    var p := PeekFrom(lines, i);
    if p.At? && p.indent >= indent && IsItem(p.text) {
      ItemSafe(lines, p.index + 1, indent, SequenceText(p.text), unquote);
      var item := Item(lines, p.index + 1, indent, SequenceText(p.text), unquote).value;
      ItemAddedSafe(items, item.node);
      ItemsSafe(lines, item.next, indent, items + [item.node], unquote);
    }
  }

  lemma {:induction false} ItemSafe(lines: seq<string>, j: nat, indent: nat, rest: string, unquote: Unquoter)
    requires j <= |lines| && Item(lines, j, indent, rest, unquote).Some?
    ensures SafeTree(Item(lines, j, indent, rest, unquote).value.node, false)
    decreases |lines| - j, 6
  {
    if TrimSpace(rest) == "" {
      NestedSafe(lines, j, indent, unquote);
    } else if SplitMapping(rest).None? {
      PolicyValueSafe(rest, false, unquote);
    } else {
      var (key, value) := SplitMapping(rest).value;
      AddEntrySafe(lines, j, indent + 2, [], key, value, unquote);
      var first := AddEntry(lines, j, indent + 2, [], key, value, unquote).value;
      ItemEntriesSafe(lines, first.next, indent + 2, first.entries, unquote);
    }
  }

  lemma {:induction false} AddEntrySafe(lines: seq<string>, j: nat, indent: nat, entries: seq<Entry>, keyText: string,
        valueText: string, unquote: Unquoter)
    requires j <= |lines| && SafeTree(Mapping(entries), false)
    requires AddEntry(lines, j, indent, entries, keyText, valueText, unquote).Some?
    ensures SafeTree(Mapping(AddEntry(lines, j, indent, entries, keyText, valueText, unquote).value.entries), false)
    decreases |lines| - j, 4
  {
    hide SafeTree, EntryValue, DecodeKey, UnsafeKey, HasKey;
    var key := DecodeKey(keyText, unquote).value;
    EntryValueSafe(lines, j, indent, key, valueText, unquote);
    EntryAddedSafe(entries, Entry(key, EntryValue(lines, j, indent, key, valueText, unquote).value.node));
  }

  lemma {:induction false} EntryValueSafe(lines: seq<string>, j: nat, indent: nat, key: string,
        text: string, unquote: Unquoter)
    requires j <= |lines| && EntryValue(lines, j, indent, key, text, unquote).Some?
    ensures SafeTree(EntryValue(lines, j, indent, key, text, unquote).value.node, key == "run")
    decreases |lines| - j, 3
  {
    var t := TrimSpace(text);
    if !IsIndicator(t) {
      if t != "" {
        PolicyValueSafe(t, key == "run", unquote);
      } else {
        NestedSafe(lines, j, indent, unquote);
        SafeMore(EntryValue(lines, j, indent, key, text, unquote).value.node);
      }
    }
  }

  lemma {:induction false} NestedSafe(lines: seq<string>, j: nat, indent: nat, unquote: Unquoter)
    requires j <= |lines| && Nested(lines, j, indent, unquote).Some?
    ensures SafeTree(Nested(lines, j, indent, unquote).value.node, false)
    decreases |lines| - j, 3, 0
  {
    var q := PeekFrom(lines, j);
    if q.At? && q.indent > indent { BlockSafe(lines, j, q.indent, unquote); }
  }

  /** Every mapping of an accepted document has distinct, safe keys. */
  lemma DocumentSafe(lines: seq<string>, unquote: Unquoter)
    requires Document(lines, unquote).Some?
    ensures SafeTree(Document(lines, unquote).value, false)
  {
    if PeekFrom(lines, 0).At? { BlockSafe(lines, 0, 0, unquote); }
  }

  /** A block always consumes the line it starts on. */
  lemma BlockConsumes(lines: seq<string>, i: nat, indent: nat, unquote: Unquoter)
    requires i <= |lines| && Block(lines, i, indent, unquote).Some?
    ensures i < Block(lines, i, indent, unquote).value.next
  {
    var p := PeekFrom(lines, i);
    hide IsItem, SplitMapping, AddEntry, Item;
  }
}
