/** The flow parser as it runs: an index moving over the text. */
module YamlFlowParser {
  import opened Wrappers
  import opened YamlText
  import opened YamlFlow

  /** The outcome of a parsing method against the outcome specified. */
  ghost predicate Matches(expected: Option<Parsed>, node: Option<Node>, rest: string) {
    match expected
    case None => node == None
    case Some(p) => node == Some(p.node) && rest == p.rest
  }

  class FlowParser {
    const text: string
    const unquote: Unquoter
    var index: nat

    ghost predicate Valid()
      reads this
    {
      index <= |text|
    }

    ghost function Rest(): string
      requires Valid()
      reads this
    {
      text[index..]
    }

    constructor (text: string, unquote: Unquoter)
      ensures Valid() && Rest() == text && this.text == text && this.unquote == unquote && index == 0
    {
      this.text, this.unquote, index := text, unquote, 0;
    }

    method SkipSpace()
      requires Valid()
      modifies this
      ensures Valid() && old(index) <= index && Rest() == SkipBlank(old(Rest()))
    {
      while index < |text| && IsBlank(text[index])
        invariant old(index) <= index <= |text| && SkipBlank(text[index..]) == SkipBlank(old(Rest()))
      {
        assert text[index..][1..] == text[index + 1..];
        index := index + 1;
      }
    }

    /** The end of a double-quoted literal, just past its closing quote. */
    method DoubleEnd() returns (end: Option<nat>)
      requires index < |text|
      ensures match DoubleLength(text[index + 1..], false)
        case None => end == None
        case Some(n) => end == Some(index + 1 + n)
    {
      var i, escaped := index + 1, false;
      ghost var whole := DoubleLength(text[index + 1..], false);
      while i < |text|
        invariant index < i <= |text|
        invariant whole == Plus(i - index - 1, DoubleLength(text[i..], escaped))
      {
        assert text[i..][1..] == text[i + 1..];
        if escaped {
          escaped := false;
        } else if text[i] == '\\' {
          escaped := true;
        } else if text[i] == '"' {
          return Some(i + 1);
        }
        i := i + 1;
      }
      end := None;
    }

    method QuotedScalar() returns (value: Option<string>)
      requires index < |text| && IsQuote(text[index])
      modifies this
      ensures Valid() && old(index) <= index
      ensures match ReadQuoted(old(Rest()), unquote)
        case None => value == None
        case Some((v, rest)) => value == Some(v) && Rest() == rest
    {
      assert text[index..][1..] == text[index + 1..];
      if text[index] == '\'' {
        var r := ReadSingleQuoted(text, index);
        if r.None? { return None; }
        var (v, end) := r.value;
        assert end > index by {
          assert |text[end..]| < |text[index + 1..]|;
        }
        index := end;
        return Some(v);
      }
      var end := DoubleEnd();
      if end.None? { return None; }
      ghost var n := end.value - index - 1;
      assert text[index..][..n + 1] == text[index..end.value] && text[index..][n + 1..] == text[end.value..];
      value := unquote(text[index..end.value]);
      if value.Some? { index := end.value; }
    }

    /** Moves to the end of a plain scalar. */
    method PlainEnd(stops: string) returns (ok: bool)
      requires Valid()
      modifies this
      ensures Valid() && old(index) <= index
      ensures match PlainLength(old(Rest()), stops)
        case None => !ok
        case Some(n) => ok && index == old(index) + n
    {
      hide PlainLength, StartsExpression, ExpressionLength;
      ghost var whole := PlainLength(text[index..], stops);
      while index < |text| && text[index] !in stops
        invariant old(index) <= index <= |text|
        invariant whole == Plus(index - old(index), PlainLength(text[index..], stops))
        decreases |text| - index
      {
        PlainAt(text, index, stops);
        if StartsExpression(text[index..]) {
          var n := ExpressionLength(text[index..]);
          if n.None? { return false; }
          index := index + n.value;
        } else {
          index := index + 1;
        }
      }
      PlainStops(text, index, stops);
      ok := true;
    }

    method PlainValue(stops: string) returns (node: Option<Node>)
      requires index < |text|
      modifies this
      ensures Valid() && old(index) <= index
      ensures Matches(PlainScalar(old(Rest()), stops), node, Rest())
    {
      hide TrimSpace, UnsafeScalar, PlainLength;
      var start := index;
      var ok := PlainEnd(stops);
      if !ok { return None; }
      assert text[start..][..index - start] == text[start..index] && text[start..][index - start..] == text[index..];
      var value := TrimSpace(text[start..index]);
      if value == "" || UnsafeScalar(value) { return None; }
      node := Some(Scalar(value, Plain));
    }

    method Value(stops: string) returns (node: Option<Node>)
      requires Valid()
      modifies this
      ensures Valid() && old(index) <= index
      ensures Matches(ParseValue(old(Rest()), stops, unquote), node, Rest())
      decreases |text| - index, 1
    {
      ghost var s := text[index..];
      ValueCases(s, stops, unquote);
      hide ParseValue, ParseEntries, ParseItems, ReadQuoted, PlainScalar;
      SkipSpace();
      ghost var t := text[index..];
      if index >= |text| { return Some(Empty); }
      ghost var at := index;
      assert t[0] == text[at] && t[1..] == text[at + 1..];
      if text[index] == '{' {
        node := MappingValue();
      } else if text[index] == '[' {
        node := SequenceValue();
      } else if IsQuote(text[index]) {
        var style := if text[index] == '\'' then SingleQuoted else DoubleQuoted;
        var value := QuotedScalar();
        if value.None? { return None; }
        node := Some(Scalar(value.value, style));
      } else {
        node := PlainValue(stops);
      }
    }

    /** One entry of a flow mapping: key, colon, value. */
    method OneEntry(ghost entries: seq<Entry>, seen: set<string>) returns (e: Option<Entry>)
      requires index < |text| && forall k :: k in seen <==> HasKey(entries, k)
      modifies this
      ensures Valid() && old(index) <= index
      ensures match ReadEntry(old(Rest()), entries, unquote)
        case None => e == None
        case Some((x, rest)) => e == Some(x) && Rest() == rest && old(index) < index
      decreases |text| - index, 2
    {
      hide ParseValue, ReadKey, UnsafeKey, HasKey, SkipBlank;
      ghost var at := index;
      var key := Key();
      if key.None? { return None; }
      SkipSpace();
      if index >= |text| || text[index] != ':' || key.value == "" || UnsafeKey(key.value)
        || key.value in seen { return None; }
      assert text[index..][1..] == text[index + 1..];
      index := index + 1;
      var value := Value(",}");
      if value.None? { return None; }
      e := Some(Entry(key.value, value.value));
    }

    method MappingValue() returns (node: Option<Node>)
      requires index < |text| && text[index] == '{'
      modifies this
      ensures Valid() && old(index) <= index
      ensures Matches(ParseEntries(old(text[index + 1..]), [], unquote), node, Rest())
      decreases |text| - index, 0
    {
      hide ParseEntries, ReadEntry, HasKey, SkipBlank;
      ghost var whole := ParseEntries(text[index + 1..], [], unquote);
      index := index + 1;
      var entries: seq<Entry> := [];
      var seen: set<string> := {};
      NoKeys();
      while true
        invariant old(index) < index <= |text|
        invariant ParseEntries(text[index..], entries, unquote) == whole
        invariant forall k :: k in seen <==> HasKey(entries, k)
        decreases |text| - index
      {
        EntriesCases(text[index..], entries, unquote);
        SkipSpace();
        if index >= |text| { return None; }
        assert text[index..][0] == text[index] && text[index..][1..] == text[index + 1..];
        if text[index] == '}' {
          index := index + 1;
          return Some(Mapping(entries));
        }
        var e := OneEntry(entries, seen);
        if e.None? { return None; }
        KeyAdded(entries, e.value);
        seen := seen + {e.value.key};
        entries := entries + [e.value];
        SkipSpace();
        if index < |text| && text[index] == ',' {
          assert text[index..][1..] == text[index + 1..];
          index := index + 1;
        } else if !(index < |text| && text[index] == '}') {
          return None;
        }
      }
    }

    method Key() returns (key: Option<string>)
      requires index < |text|
      modifies this
      ensures Valid() && old(index) <= index
      ensures match ReadKey(old(Rest()), unquote)
        case None => key == None
        case Some((k, rest)) => key == Some(k) && Rest() == rest
    {
      var start := index;
      if IsQuote(text[index]) {
        key := QuotedScalar();
        return;
      }
      while index < |text| && text[index] != ':'
        invariant start <= index <= |text| && ColonAt(text[start..]) == index - start + ColonAt(text[index..])
      {
        assert text[index..][1..] == text[index + 1..];
        index := index + 1;
      }
      assert text[start..][..index - start] == text[start..index] && text[start..][index - start..] == text[index..];
      key := Some(TrimSpace(text[start..index]));
    }

    method SequenceValue() returns (node: Option<Node>)
      requires index < |text| && text[index] == '['
      modifies this
      ensures Valid() && old(index) <= index
      ensures Matches(ParseItems(old(text[index + 1..]), [], unquote), node, Rest())
      decreases |text| - index, 0
    {
      hide ParseValue, ParseItems;
      ghost var whole := ParseItems(text[index + 1..], [], unquote);
      index := index + 1;
      var items: seq<Node> := [];
      while true
        invariant old(index) < index <= |text|
        invariant ParseItems(text[index..], items, unquote) == whole
        decreases |text| - index
      {
        ghost var s := text[index..];
        ItemsCases(s, items, unquote);
        SkipSpace();
        if index >= |text| { return None; }
        ghost var t := text[index..];
        assert t[0] == text[index] && t[1..] == text[index + 1..];
        if text[index] == ']' {
          index := index + 1;
          return Some(Sequence(items));
        }
        var item := Value(",]");
        if item.None? { return None; }
        items := items + [item.value];
        SkipSpace();
        if index < |text| && text[index] == ',' {
          assert text[index..][1..] == text[index + 1..];
          index := index + 1;
        } else if !(index < |text| && text[index] == ']') {
          return None;
        }
      }
    }
  }

  lemma KeyAdded(entries: seq<Entry>, e: Entry)
    ensures forall k :: HasKey(entries + [e], k) <==> HasKey(entries, k) || k == e.key
  {
    var all := entries + [e];
    assert all[|entries|] == e && forall i | 0 <= i < |entries| :: all[i] == entries[i];
  }

  lemma ValueCases(s: string, stops: string, unquote: Unquoter)
    ensures var t := SkipBlank(s);
      ParseValue(s, stops, unquote) ==
        if t == "" then Some(Parsed(Empty, ""))
        else if t[0] == '{' then ParseEntries(t[1..], [], unquote)
        else if t[0] == '[' then ParseItems(t[1..], [], unquote)
        else if IsQuote(t[0]) then
          (match ReadQuoted(t, unquote)
            case None => None
            case Some((v, rest)) => Some(Parsed(Scalar(v, if t[0] == '\'' then SingleQuoted else DoubleQuoted), rest)))
        else PlainScalar(t, stops)
  {
  }

  /** What one round of the mapping loop does. */
  lemma EntriesCases(s: string, entries: seq<Entry>, unquote: Unquoter)
    ensures var t := SkipBlank(s);
      && (t == "" ==> ParseEntries(s, entries, unquote) == None)
      && (t != "" && t[0] == '}' ==> ParseEntries(s, entries, unquote) == Some(Parsed(Mapping(entries), t[1..])))
      && (t != "" && t[0] != '}' ==> ParseEntries(s, entries, unquote) == EntryRound(t, entries, unquote))
  {
  }

  /** One entry and the text after it. */
  ghost function ReadEntry(t: string, entries: seq<Entry>, unquote: Unquoter): Option<(Entry, string)>
    requires t != ""
  {
    match ReadKey(t, unquote)
    case None => None
    case Some((key, u)) =>
      var v := SkipBlank(u);
      if v == "" || v[0] != ':' || key == "" || UnsafeKey(key) || HasKey(entries, key) then None
      else
        match ParseValue(v[1..], ",}", unquote)
        case None => None
        case Some(value) => Some((Entry(key, value.node), value.rest))
  }

  ghost function EntryRound(t: string, entries: seq<Entry>, unquote: Unquoter): Option<Parsed>
    requires t != ""
  {
    match ReadEntry(t, entries, unquote)
    case None => None
    case Some((e, rest)) =>
      var w := SkipBlank(rest);
      if w != "" && w[0] == ',' then ParseEntries(w[1..], entries + [e], unquote)
      else if w != "" && w[0] == '}' then ParseEntries(w, entries + [e], unquote)
      else None
  }

  lemma NoKeys()
    ensures forall k :: !HasKey([], k)
  {
  }

  lemma PlainAt(text: string, index: nat, stops: string)
    requires index < |text| && text[index] !in stops
    ensures var s := text[index..];
      PlainLength(s, stops) ==
        if !StartsExpression(s) then Plus(1, PlainLength(text[index + 1..], stops))
        else if ExpressionLength(s).None? then None
        else Plus(ExpressionLength(s).value, PlainLength(text[index + ExpressionLength(s).value..], stops))
  {
    var s := text[index..];
    assert s[1..] == text[index + 1..];
    if StartsExpression(s) && ExpressionLength(s).Some? {
      assert s[ExpressionLength(s).value..] == text[index + ExpressionLength(s).value..];
    }
  }

  lemma PlainStops(text: string, index: nat, stops: string)
    requires index <= |text| && (index < |text| ==> text[index] in stops)
    ensures PlainLength(text[index..], stops) == Some(0)
  {
  }

  lemma ItemsCases(s: string, items: seq<Node>, unquote: Unquoter)
    ensures var t := SkipBlank(s);
      && (t == "" ==> ParseItems(s, items, unquote) == None)
      && (t != "" && t[0] == ']' ==> ParseItems(s, items, unquote) == Some(Parsed(Sequence(items), t[1..])))
      && (t != "" && t[0] != ']' ==> ParseItems(s, items, unquote) == ItemRound(t, items, unquote))
  {
  }

  ghost function ItemRound(t: string, items: seq<Node>, unquote: Unquoter): Option<Parsed>
    requires t != ""
  {
    match ParseValue(t, ",]", unquote)
    case None => None
    case Some(item) =>
      var w := SkipBlank(item.rest);
      var more := items + [item.node];
      if w != "" && w[0] == ',' then ParseItems(w[1..], more, unquote)
      else if w != "" && w[0] == ']' then ParseItems(w, more, unquote)
      else None
  }
}
