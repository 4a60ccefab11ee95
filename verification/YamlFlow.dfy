/** The flow parser of the workflow policy reader: bracketed sequences and
    mappings, quoted and plain scalars. */
module YamlFlow {
  import opened Wrappers
  import opened YamlText

  datatype Style = Plain | SingleQuoted | DoubleQuoted | BlockText

  datatype Entry = Entry(key: string, value: Node)

  datatype Node =
    | Empty
    | Scalar(value: string, style: Style)
    | Mapping(entries: seq<Entry>)
    | Sequence(items: seq<Node>)

  datatype Parsed = Parsed(node: Node, rest: string)

  function SkipBlank(s: string): (r: string)
    ensures |r| <= |s|
    ensures r == "" || !IsBlank(r[0])
  {
    if s != "" && IsBlank(s[0]) then SkipBlank(s[1..]) else s
  }

  /** How far a plain scalar goes: to a stop character outside expressions. */
  function PlainLength(s: string, stops: string): (r: Option<nat>)
    ensures r.Some? ==> r.value <= |s|
    decreases |s|
  {
    if s == "" || s[0] in stops then Some(0)
    else if StartsExpression(s) then
      var n := ExpressionLength(s);
      if n.None? then None else Plus(n.value, PlainLength(s[n.value..], stops))
    else Plus(1, PlainLength(s[1..], stops))
  }

  function ColonAt(s: string): (n: nat)
    ensures n <= |s|
  {
    if s == "" || s[0] == ':' then 0 else 1 + ColonAt(s[1..])
  }

  predicate HasKey(entries: seq<Entry>, key: string) { exists i | 0 <= i < |entries| :: entries[i].key == key }

  function PlainScalar(s: string, stops: string): (r: Option<Parsed>)
    ensures r.Some? ==> |r.value.rest| < |s|
  {
    var n := PlainLength(s, stops);
    if n.None? then None
    else
      var value := TrimSpace(s[..n.value]);
      if value == "" || UnsafeScalar(value) then None else Some(Parsed(Scalar(value, Plain), s[n.value..]))
  }

  /** A key of a flow mapping and the text after it. */
  function ReadKey(s: string, unquote: Unquoter): (r: Option<(string, string)>)
    requires s != ""
    ensures r.Some? ==> |r.value.1| <= |s|
  {
    if IsQuote(s[0]) then ReadQuoted(s, unquote)
    else Some((TrimSpace(s[..ColonAt(s)]), s[ColonAt(s)..]))
  }

  function ParseValue(s: string, stops: string, unquote: Unquoter): (r: Option<Parsed>)
    ensures r.Some? ==> |r.value.rest| <= |s| && (SkipBlank(s) != "" ==> |r.value.rest| < |s|)
    decreases |s|, 1
  {
    var t := SkipBlank(s);
    if t == "" then Some(Parsed(Empty, ""))
    else if t[0] == '{' then ParseEntries(t[1..], [], unquote)
    else if t[0] == '[' then ParseItems(t[1..], [], unquote)
    else if IsQuote(t[0]) then
      var r := ReadQuoted(t, unquote);
      if r.None? then None
      else Some(Parsed(Scalar(r.value.0, if t[0] == '\'' then SingleQuoted else DoubleQuoted), r.value.1))
    else PlainScalar(t, stops)
  }

  /** The rest of a flow mapping, after some entries. */
  function ParseEntries(s: string, entries: seq<Entry>, unquote: Unquoter): (r: Option<Parsed>)
    ensures r.Some? ==> |r.value.rest| < |s|
    decreases |s|, 2
  {
    var t := SkipBlank(s);
    if t == "" then None
    else if t[0] == '}' then Some(Parsed(Mapping(entries), t[1..]))
    else
      var k := ReadKey(t, unquote);
      if k.None? then None
      else
        var (key, u) := k.value;
        var v := SkipBlank(u);
        if v == "" || v[0] != ':' || key == "" || UnsafeKey(key) || HasKey(entries, key) then None
        else
          var value := ParseValue(v[1..], ",}", unquote);
          if value.None? then None
          else
            var w := SkipBlank(value.value.rest);
            var more := entries + [Entry(key, value.value.node)];
            if w != "" && w[0] == ',' then ParseEntries(w[1..], more, unquote)
            else if w != "" && w[0] == '}' then ParseEntries(w, more, unquote)
            else None
  }

  /** The rest of a flow sequence, after some items. */
  function ParseItems(s: string, items: seq<Node>, unquote: Unquoter): (r: Option<Parsed>)
    ensures r.Some? ==> |r.value.rest| < |s|
    decreases |s|, 2
  {
    var t := SkipBlank(s);
    if t == "" then None
    else if t[0] == ']' then Some(Parsed(Sequence(items), t[1..]))
    else
      assert SkipBlank(t) == t;
      var item := ParseValue(t, ",]", unquote);
      if item.None? then None
      else
        var w := SkipBlank(item.value.rest);
        var more := items + [item.value.node];
        if w != "" && w[0] == ',' then ParseItems(w[1..], more, unquote)
        else if w != "" && w[0] == ']' then ParseItems(w, more, unquote)
        else None
  }

  /** A value on a line of its own or after a key. */
  function PolicyValue(text: string, allowShell: bool, unquote: Unquoter): Option<Node> {
    var t := TrimSpace(text);
    if t == "" then Some(Empty)
    else if t[0] == '{' || t[0] == '[' || IsQuote(t[0]) then
      var p := ParseValue(t, "", unquote);
      if p.None? || SkipBlank(p.value.rest) != "" then None else Some(p.value.node)
    else if !allowShell && UnsafeScalar(t) then None
    else Some(Scalar(t, Plain))
  }

  lemma {:induction false} EntriesMakeMapping(s: string, entries: seq<Entry>, unquote: Unquoter)
    requires ParseEntries(s, entries, unquote).Some?
    ensures ParseEntries(s, entries, unquote).value.node.Mapping?
    decreases |s|
  {
    hide ParseValue, ReadKey, UnsafeKey, HasKey;
    var t := SkipBlank(s);
    if t[0] != '}' {
      var (key, u) := ReadKey(t, unquote).value;
      var value := ParseValue(SkipBlank(u)[1..], ",}", unquote).value;
      var w := SkipBlank(value.rest);
      EntriesMakeMapping(if w[0] == ',' then w[1..] else w, entries + [Entry(key, value.node)], unquote);
    }
  }

  lemma {:induction false} ItemsMakeSequence(s: string, items: seq<Node>, unquote: Unquoter)
    requires ParseItems(s, items, unquote).Some?
    ensures ParseItems(s, items, unquote).value.node.Sequence?
    decreases |s|
  {
    hide ParseValue;
    var t := SkipBlank(s);
    if t[0] != ']' {
      var item := ParseValue(t, ",]", unquote).value;
      var w := SkipBlank(item.rest);
      ItemsMakeSequence(if w[0] == ',' then w[1..] else w, items + [item.node], unquote);
    }
  }

  /** A value reads as a plain scalar exactly if its trimmed text begins with no
      bracket and no quote and, unless it is shell text, is safe; and then as that
      text. */
  lemma PlainValueExact(text: string, value: string, allowShell: bool, unquote: Unquoter)
    ensures PolicyValue(text, allowShell, unquote) == Some(Scalar(value, Plain)) <==>
      && value == TrimSpace(text) && value != "" && value[0] != '{' && value[0] != '[' && !IsQuote(value[0])
      && (allowShell || SafeText(value))
  {
    hide UnsafeScalar, SafeText, TrimSpace, ParseEntries, ParseItems, ReadQuoted;
    var t := TrimSpace(text);
    UnsafeByPosition(t);
    if t != "" && PolicyValue(text, allowShell, unquote).Some? {
      if t[0] == '{' { EntriesMakeMapping(t[1..], [], unquote); }
      if t[0] == '[' { ItemsMakeSequence(t[1..], [], unquote); }
    }
  }

  // ----- Trees the reader accepts -----

  ghost predicate DistinctKeys(entries: seq<Entry>) {
    forall i, j | 0 <= i < j < |entries| :: entries[i].key != entries[j].key
  }

  /** No merge key, no open expression and no field that begins with a mark. */
  ghost predicate SafeKey(key: string) { key != "<<" && SafeText(key) }

  /** Every mapping in the tree has distinct, safe keys, every plain scalar is safe
      too, and only the value of a `run` key is shell text or block text. */
  ghost predicate SafeTree(n: Node, shell: bool) {
    match n
    case Empty => true
    case Scalar(value, style) => shell || (style != BlockText && (style == Plain ==> SafeText(value)))
    case Mapping(entries) =>
      DistinctKeys(entries) && forall i | 0 <= i < |entries| ::
        SafeKey(entries[i].key) && SafeTree(entries[i].value, entries[i].key == "run")
    case Sequence(items) => forall i | 0 <= i < |items| :: SafeTree(items[i], false)
  }

  lemma SafeMore(n: Node)
    requires SafeTree(n, false)
    ensures SafeTree(n, true)
  {
  }

  lemma PlainScalarSafe(s: string, stops: string)
    requires PlainScalar(s, stops).Some?
    ensures SafeTree(PlainScalar(s, stops).value.node, false)
  {
    UnsafeByPosition(PlainScalar(s, stops).value.node.value);
  }

  lemma {:induction false} ParseValueSafe(s: string, stops: string, unquote: Unquoter)
    requires ParseValue(s, stops, unquote).Some?
    ensures SafeTree(ParseValue(s, stops, unquote).value.node, false)
    decreases |s|, 1
  {
    hide PlainScalar;
    var t := SkipBlank(s);
    if t != "" {
      if t[0] == '{' {
        ParseEntriesSafe(t[1..], [], unquote);
      } else if t[0] == '[' {
        ParseItemsSafe(t[1..], [], unquote);
      } else if !IsQuote(t[0]) {
        PlainScalarSafe(t, stops);
      }
    }
  }

  lemma EntryAddedSafe(entries: seq<Entry>, e: Entry)
    requires SafeTree(Mapping(entries), false) && !HasKey(entries, e.key) && !UnsafeKey(e.key)
    requires SafeTree(e.value, e.key == "run")
    ensures SafeTree(Mapping(entries + [e]), false)
  {
    UnsafeByPosition(e.key);
    hide UnsafeScalar, SafeText;
  }

  lemma {:induction false} ParseEntriesSafe(s: string, entries: seq<Entry>, unquote: Unquoter)
    requires SafeTree(Mapping(entries), false) && ParseEntries(s, entries, unquote).Some?
    ensures SafeTree(ParseEntries(s, entries, unquote).value.node, false)
    decreases |s|, 2
  {
    hide SafeTree, ParseValue, ReadKey, UnsafeKey, HasKey;
    var t := SkipBlank(s);
    if t[0] != '}' {
      var (key, u) := ReadKey(t, unquote).value;
      var v := SkipBlank(u);
      ParseValueSafe(v[1..], ",}", unquote);
      var value := ParseValue(v[1..], ",}", unquote).value;
      var w := SkipBlank(value.rest);
      var more := entries + [Entry(key, value.node)];
      SafeMore(value.node);
      EntryAddedSafe(entries, Entry(key, value.node));
      if w[0] == ',' { ParseEntriesSafe(w[1..], more, unquote); } else { ParseEntriesSafe(w, more, unquote); }
    }
  }

  lemma {:induction false} ParseItemsSafe(s: string, items: seq<Node>, unquote: Unquoter)
    requires SafeTree(Sequence(items), false) && ParseItems(s, items, unquote).Some?
    ensures SafeTree(ParseItems(s, items, unquote).value.node, false)
    decreases |s|, 2
  {
    hide ParseValue;
    var t := SkipBlank(s);
    if t[0] != ']' {
      ParseValueSafe(t, ",]", unquote);
      var item := ParseValue(t, ",]", unquote).value;
      var w := SkipBlank(item.rest);
      var more := items + [item.node];
      assert SafeTree(Sequence(more), false);
      if w[0] == ',' { ParseItemsSafe(w[1..], more, unquote); } else { ParseItemsSafe(w, more, unquote); }
    }
  }

  lemma PolicyValueSafe(text: string, allowShell: bool, unquote: Unquoter)
    requires PolicyValue(text, allowShell, unquote).Some?
    ensures SafeTree(PolicyValue(text, allowShell, unquote).value, allowShell)
  {
    hide ParseValue, UnsafeScalar, SafeText, TrimSpace;
    var t := TrimSpace(text);
    if t != "" && (t[0] == '{' || t[0] == '[' || IsQuote(t[0])) {
      ParseValueSafe(t, "", unquote);
      SafeMore(PolicyValue(text, allowShell, unquote).value);
    } else if t != "" {
      UnsafeByPosition(t);
    }
  }

  /** The first entry under a name. */
  function Named(entries: seq<Entry>, name: string): Option<nat> {
    if entries == [] then None
    else if entries[0].key == name then Some(0)
    else
      var r := Named(entries[1..], name);
      if r.None? then None else Some(r.value + 1)
  }

  /** In an accepted tree the first match is the only match. */
  lemma {:induction false} FirstMatchIsOnly(entries: seq<Entry>, name: string)
    requires DistinctKeys(entries)
    ensures forall i | 0 <= i < |entries| :: entries[i].key == name <==> Named(entries, name) == Some(i)
  {
    if entries != [] {
      FirstMatchIsOnly(entries[1..], name);
      assert forall i | 1 <= i < |entries| :: entries[i] == entries[1..][i - 1];
    }
  }
}
