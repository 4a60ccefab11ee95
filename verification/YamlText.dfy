/** The line scanners of the workflow policy reader: what counts as quoted, what
    as an expression, where a comment starts and where a key ends. */
module YamlText {
  import opened Wrappers

  /** YAML's own blanks. */
  predicate IsBlank(c: char) { c == ' ' || c == '\t' || c == '\r' || c == '\n' }

  /** White space as the string library trims it. */
  predicate IsSpace(c: char) {
    || c == ' ' || '\t' <= c <= '\r' || c == '\U{0085}' || c == '\U{00A0}' || c == '\U{1680}'
    || '\U{2000}' <= c <= '\U{200A}'
    || c == '\U{2028}' || c == '\U{2029}' || c == '\U{202F}' || c == '\U{205F}' || c == '\U{3000}'
  }

  function TrimLeft(s: string): string { if s != "" && IsSpace(s[0]) then TrimLeft(s[1..]) else s }

  function TrimRight(s: string): string { if s != "" && IsSpace(s[|s| - 1]) then TrimRight(s[..|s| - 1]) else s }

  function TrimSpace(s: string): string { TrimRight(TrimLeft(s)) }

  lemma TrimNothing(s: string)
    requires s != "" && !IsSpace(s[0]) && !IsSpace(s[|s| - 1])
    ensures TrimSpace(s) == s
  {
  }

  /** Where the first `}}` starts. */
  function IndexClose(s: string): (r: Option<nat>)
    ensures r.Some? ==> r.value + 2 <= |s|
  {
    if |s| < 2 then None
    else if s[0] == '}' && s[1] == '}' then Some(0)
    else
      var rest := IndexClose(s[1..]);
      if rest.None? then None else Some(rest.value + 1)
  }

  predicate StartsExpression(s: string) { |s| >= 3 && s[0] == '$' && s[1] == '{' && s[2] == '{' }

  /** The length of the `${{ ... }}` at the start, if it is closed. */
  function ExpressionLength(s: string): (r: Option<nat>)
    requires StartsExpression(s)
    ensures r.Some? ==> 5 <= r.value <= |s|
  {
    var close := IndexClose(s[3..]);
    if close.None? then None else Some(close.value + 5)
  }

  // ----- Quoting -----

  /** Where a scanner is with respect to quotes. */
  datatype Quote = Outside | Single | Double(escaped: bool)

  /** One step inside a quoted scalar: how many characters, and the state after. */
  function QuotedStep(s: string, q: Quote): (r: (nat, Quote))
    requires s != "" && q != Outside
    ensures 1 <= r.0 <= |s|
  {
    match q
    case Single =>
      if s[0] != '\'' then (1, Single)
      else if |s| > 1 && s[1] == '\'' then (2, Single)
      else (1, Outside)
    case Double(escaped) =>
      if escaped then (1, Double(false))
      else if s[0] == '\\' then (1, Double(true))
      else if s[0] == '"' then (1, Outside)
      else (1, q)
  }

  predicate IsQuote(c: char) { c == '\'' || c == '"' }

  function Opening(c: char): Quote { if c == '\'' then Single else Double(false) }

  // ----- Comments and brackets -----

  function Plus(n: nat, r: Option<nat>): Option<nat> { if r.None? then None else Some(n + r.value) }

  /** One step of the comment scanner: done, or on by some characters. */
  datatype CommentStep = CommentDone(ok: bool) | CommentNext(count: nat, blank: bool, quote: Quote, flow: seq<char>)

  function StepComment(s: string, blank: bool, q: Quote, flow: seq<char>): (r: CommentStep)
    requires s != ""
    ensures r.CommentNext? ==> 1 <= r.count <= |s|
  {
    if q != Outside then
      var (n, next) := QuotedStep(s, q);
      CommentNext(n, false, next, flow)
    else if IsQuote(s[0]) then CommentNext(1, false, Opening(s[0]), flow)
    else if StartsExpression(s) then
      var n := ExpressionLength(s);
      if n.None? then CommentDone(false) else CommentNext(n.value, false, Outside, flow)
    else if s[0] == '#' && blank then CommentDone(flow == [])
    else if s[0] == '{' || s[0] == '[' then CommentNext(1, false, Outside, flow + [s[0]])
    else if s[0] == '}' || s[0] == ']' then
      if flow == [] || flow[|flow| - 1] != (if s[0] == '}' then '{' else '[') then CommentDone(false)
      else CommentNext(1, false, Outside, flow[..|flow| - 1])
    else CommentNext(1, IsBlank(s[0]), Outside, flow)
  }

  /** How much of a line is left once its comment is cut, or nothing when quotes,
      expressions or brackets do not close. `blank` says whether a blank or the
      start of the line comes just before. */
  function Sanitized(s: string, blank: bool, q: Quote, flow: seq<char>): (r: Option<nat>)
    ensures r.Some? ==> r.value <= |s|
    decreases |s|
  {
    if s == "" then (if q == Outside && flow == [] then Some(0) else None)
    else
      match StepComment(s, blank, q, flow)
      case CommentDone(ok) => if ok then Some(0) else None
      case CommentNext(n, b, next, f) => Plus(n, Sanitized(s[n..], b, next, f))
  }

  lemma SanitizedAt(text: string, index: nat, blank: bool, q: Quote, flow: seq<char>)
    requires index < |text|
    ensures var step := StepComment(text[index..], blank, q, flow);
      Sanitized(text[index..], blank, q, flow) ==
        if step.CommentNext?
          then Plus(step.count, Sanitized(text[index + step.count..], step.blank, step.quote, step.flow))
        else if step.ok then Some(0) else None
  {
    var step := StepComment(text[index..], blank, q, flow);
    if step.CommentNext? { assert text[index..][step.count..] == text[index + step.count..]; }
  }

  /** The scanning loop. */
  method SanitizeLine(text: string) returns (r: Option<string>)
    ensures r == match Sanitized(text, true, Outside, []) case None => None case Some(n) => Some(text[..n])
  {
    hide Sanitized, StepComment;
    var quote, flow, index, blank := Outside, [], 0, true;
    ghost var whole := Sanitized(text, true, Outside, []);
    assert text[0..] == text && text[..|text|] == text;
    while index < |text|
      invariant index <= |text|
      invariant whole == Plus(index, Sanitized(text[index..], blank, quote, flow))
      decreases |text| - index
    {
      SanitizedAt(text, index, blank, quote, flow);
      var step := StepComment(text[index..], blank, quote, flow);
      if step.CommentDone? { return if step.ok then Some(text[..index]) else None; }
      index, blank, quote, flow := index + step.count, step.blank, step.quote, step.flow;
    }
    SanitizedEnd(text, blank, quote, flow);
    r := if quote == Outside && flow == [] then Some(text) else None;
  }

  lemma SanitizedEnd(text: string, blank: bool, q: Quote, flow: seq<char>)
    ensures Sanitized(text[|text|..], blank, q, flow) == if q == Outside && flow == [] then Some(0) else None
  {
  }

  // ----- Keys -----

  datatype KeyStep = KeyFound | KeyFailed | KeyNext(count: nat, quote: Quote, depth: int)

  function StepKey(s: string, q: Quote, depth: int): (r: KeyStep)
    requires s != ""
    ensures r.KeyNext? ==> 1 <= r.count <= |s|
    ensures r.KeyFound? ==> s[0] == ':'
  {
    if q != Outside then
      var (n, next) := QuotedStep(s, q);
      KeyNext(n, next, depth)
    else if IsQuote(s[0]) then KeyNext(1, Opening(s[0]), depth)
    else if StartsExpression(s) then
      var n := ExpressionLength(s);
      if n.None? then KeyFailed else KeyNext(n.value, Outside, depth)
    else if s[0] == ':' && depth == 0 && (|s| == 1 || IsBlank(s[1]) || s[1] == '{' || s[1] == '[') then KeyFound
    else KeyNext(1, Outside,
      depth + (if s[0] == '{' || s[0] == '[' then 1 else if s[0] == '}' || s[0] == ']' then -1 else 0))
  }

  /** Where the colon is that ends the key of a mapping line. */
  function KeyEnd(s: string, q: Quote, depth: int): (r: Option<nat>)
    ensures r.Some? ==> r.value < |s| && s[r.value] == ':'
    decreases |s|
  {
    if s == "" then None
    else
      match StepKey(s, q, depth)
      case KeyFound => Some(0)
      case KeyFailed => None
      case KeyNext(n, next, d) => Plus(n, KeyEnd(s[n..], next, d))
  }

  function SplitMapping(text: string): Option<(string, string)> {
    var n := KeyEnd(text, Outside, 0);
    if n.None? then None else Some((TrimSpace(text[..n.value]), TrimSpace(text[n.value + 1..])))
  }

  lemma KeyEndAt(text: string, index: nat, q: Quote, depth: int)
    requires index < |text|
    ensures var step := StepKey(text[index..], q, depth);
      KeyEnd(text[index..], q, depth) ==
        if step.KeyNext? then Plus(step.count, KeyEnd(text[index + step.count..], step.quote, step.depth))
        else if step.KeyFound? then Some(0) else None
  {
    var step := StepKey(text[index..], q, depth);
    if step.KeyNext? { assert text[index..][step.count..] == text[index + step.count..]; }
  }

  /** The scanning loop. */
  method SplitLine(text: string) returns (r: Option<(string, string)>)
    ensures r == SplitMapping(text)
  {
    hide KeyEnd, StepKey;
    var quote, depth, index := Outside, 0, 0;
    ghost var whole := KeyEnd(text, Outside, 0);
    assert text[0..] == text;
    while index < |text|
      invariant index <= |text|
      invariant whole == Plus(index, KeyEnd(text[index..], quote, depth))
      decreases |text| - index
    {
      KeyEndAt(text, index, quote, depth);
      var step := StepKey(text[index..], quote, depth);
      if step.KeyFailed? { return None; }
      if step.KeyFound? { return Some((TrimSpace(text[..index]), TrimSpace(text[index + 1..]))); }
      index, quote, depth := index + step.count, step.quote, step.depth;
    }
    KeyEndNowhere(text, quote, depth);
    r := None;
  }

  lemma KeyEndNowhere(text: string, q: Quote, depth: int)
    ensures KeyEnd(text[|text|..], q, depth) == None
  {
  }

  // ----- Quoted scalars -----

  /** What the string library makes of a double-quoted literal. */
  type Unquoter = string -> Option<string>

  /** The rest of a single-quoted scalar: its value and the text after it. */
  function ReadSingle(s: string): (r: Option<(string, string)>)
    ensures r.Some? ==> |r.value.1| < |s|
  {
    if s == "" then None
    else if s[0] != '\'' then
      var r := ReadSingle(s[1..]);
      if r.None? then None else Some(([s[0]] + r.value.0, r.value.1))
    else if |s| > 1 && s[1] == '\'' then
      var r := ReadSingle(s[2..]);
      if r.None? then None else Some((['\''] + r.value.0, r.value.1))
    else Some(("", s[1..]))
  }

  /** The length of a double-quoted literal up to its closing quote, counted from
      after the opening one. */
  function DoubleLength(s: string, escaped: bool): (r: Option<nat>)
    ensures r.Some? ==> 1 <= r.value <= |s|
  {
    if s == "" then None
    else if !escaped && s[0] == '"' then Some(1)
    else
      var r := DoubleLength(s[1..], !escaped && s[0] == '\\');
      if r.None? then None else Some(r.value + 1)
  }

  function ReadQuoted(s: string, unquote: Unquoter): (r: Option<(string, string)>)
    requires s != "" && IsQuote(s[0])
    ensures r.Some? ==> |r.value.1| < |s|
  {
    if s[0] == '\'' then ReadSingle(s[1..])
    else
      var n := DoubleLength(s[1..], false);
      if n.None? then None
      else
        var value := unquote(s[..n.value + 1]);
        if value.None? then None else Some((value.value, s[n.value + 1..]))
  }

  /** The reading loop over a single-quoted scalar. */
  method ReadSingleQuoted(text: string, start: nat) returns (r: Option<(string, nat)>)
    requires start < |text| && text[start] == '\''
    ensures match ReadSingle(text[start + 1..])
      case None => r == None
      case Some((value, rest)) => r.Some? && r.value.0 == value && r.value.1 <= |text| && text[r.value.1..] == rest
  {
    var value, index := "", start + 1;
    ghost var whole := ReadSingle(text[start + 1..]);
    Prepended("", whole);
    while index < |text|
      invariant start < index <= |text|
      invariant whole == Prepend(value, ReadSingle(text[index..]))
      decreases |text| - index
    {
      ghost var rest := text[index..];
      if text[index] != '\'' {
        assert rest[1..] == text[index + 1..];
        PrependMore(value, [text[index]], ReadSingle(text[index + 1..]));
        value := value + [text[index]];
        index := index + 1;
      } else if index + 1 < |text| && text[index + 1] == '\'' {
        assert rest[2..] == text[index + 2..];
        PrependMore(value, ['\''], ReadSingle(text[index + 2..]));
        value := value + ['\''];
        index := index + 2;
      } else {
        assert rest[1..] == text[index + 1..];
        return Some((value, index + 1));
      }
    }
    r := None;
  }

  ghost function Prepend(s: string, r: Option<(string, string)>): Option<(string, string)> {
    if r.None? then None else Some((s + r.value.0, r.value.1))
  }

  lemma Prepended(s: string, r: Option<(string, string)>)
    ensures s == "" ==> Prepend(s, r) == r
  {
    if r.Some? { assert "" + r.value.0 == r.value.0; }
  }

  lemma PrependMore(a: string, b: string, r: Option<(string, string)>)
    ensures Prepend(a, Prepend(b, r)) == Prepend(a + b, r)
  {
    if r.Some? { assert a + (b + r.value.0) == a + b + r.value.0; }
  }

  /** The key of a line, as it stands before the colon. */
  function DecodeKey(text: string, unquote: Unquoter): Option<string> {
    var t := TrimSpace(text);
    if t == "" then None
    else if !IsQuote(t[0]) then (if ' ' in t || '\t' in t then None else Some(t))
    else
      var r := ReadQuoted(t, unquote);
      if r.None? || TrimSpace(r.value.1) != "" then None else Some(r.value.0)
  }

  // ----- Safety of keys and scalars -----

  /** Replaces every expression by a blank, or gives up on one that is open. */
  function WithoutExpressions(s: string): Option<string>
    decreases |s|
  {
    if s == "" then Some("")
    else if StartsExpression(s) then
      var n := ExpressionLength(s);
      if n.None? then None
      else
        var rest := WithoutExpressions(s[n.value..]);
        if rest.None? then None else Some(" " + rest.value)
    else
      var rest := WithoutExpressions(s[1..]);
      if rest.None? then None else Some([s[0]] + rest.value)
  }

  predicate IsMark(c: char) { c == '&' || c == '*' || c == '!' }

  /** Some blank-separated field starts with an anchor, alias or tag mark. */
  predicate HasMark(s: string, fieldStart: bool) {
    s != "" && ((fieldStart && IsMark(s[0])) || HasMark(s[1..], IsSpace(s[0])))
  }

  predicate UnsafeScalar(s: string) {
    var plain := WithoutExpressions(s);
    plain.None? || HasMark(plain.value, true)
  }

  predicate UnsafeKey(s: string) { s == "<<" || UnsafeScalar(s) }

  // ----- What that means, position by position -----

  /** The character is part of a closed expression. */
  predicate InExpression(s: string, i: nat)
    requires i < |s|
    decreases |s|
  {
    if StartsExpression(s) && ExpressionLength(s).Some? then
      var n := ExpressionLength(s).value;
      i < n || InExpression(s[n..], i - n)
    else i > 0 && InExpression(s[1..], i - 1)
  }

  /** The character begins a field: it comes first, after white space or after an
      expression. */
  predicate BeginsField(s: string, i: nat)
    requires i < |s|
  {
    i == 0 || IsSpace(s[i - 1]) || InExpression(s, i - 1)
  }

  /** Every expression is closed, and no field outside them begins with a mark. */
  ghost predicate SafeText(s: string) {
    forall i | 0 <= i < |s| && !InExpression(s, i) ::
      !StartsExpression(s[i..]) && !(IsMark(s[i]) && BeginsField(s, i))
  }

  predicate BeginsAt(s: string, i: nat, start: bool)
    requires i < |s|
  {
    if i == 0 then start else IsSpace(s[i - 1]) || InExpression(s, i - 1)
  }

  ghost predicate SafeFrom(s: string, start: bool) {
    forall i | 0 <= i < |s| && !InExpression(s, i) ::
      !StartsExpression(s[i..]) && !(IsMark(s[i]) && BeginsAt(s, i, start))
  }

  lemma SafeStep(s: string, start: bool)
    requires s != ""
    ensures StartsExpression(s) && ExpressionLength(s).None? ==> !SafeFrom(s, start)
    ensures StartsExpression(s) && ExpressionLength(s).Some? ==>
      (SafeFrom(s, start) <==> SafeFrom(s[ExpressionLength(s).value..], true))
    ensures !StartsExpression(s) ==>
      (SafeFrom(s, start) <==> !(IsMark(s[0]) && start) && SafeFrom(s[1..], IsSpace(s[0])))
  {
    assert s[0..] == s;
    if StartsExpression(s) {
      if ExpressionLength(s).None? {
        assert !InExpression(s, 0);
      } else {
        SafeShift(s, start, ExpressionLength(s).value, true);
      }
    } else {
      assert !InExpression(s, 0);
      SafeShift(s, start, 1, IsSpace(s[0]));
    }
  }

  /** What is safe from some place on, when all before it is one step. */
  lemma SafeShift(s: string, start: bool, n: nat, next: bool)
    requires 1 <= n <= |s|
    requires if StartsExpression(s) then ExpressionLength(s) == Some(n) && next else n == 1 && next == IsSpace(s[0])
    ensures SafeFrom(s[n..], next) <==>
      forall i | n <= i < |s| && !InExpression(s, i) ::
        !StartsExpression(s[i..]) && !(IsMark(s[i]) && BeginsAt(s, i, start))
    ensures StartsExpression(s) ==> forall i | 0 <= i < n :: InExpression(s, i)
  {
    hide StartsExpression, ExpressionLength, SafeFrom;
    var t := s[n..];
    forall i | n <= i < |s|
      ensures InExpression(s, i) == InExpression(t, i - n) && s[i..] == t[i - n..] && s[i] == t[i - n]
      ensures BeginsAt(s, i, start) == BeginsAt(t, i - n, next)
    {
    }
    SafeSame(s, start, n, next);
  }

  lemma SafeSame(s: string, start: bool, n: nat, next: bool)
    requires n <= |s|
    requires forall i | n <= i < |s| ::
      && InExpression(s, i) == InExpression(s[n..], i - n) && s[i..] == s[n..][i - n..]
      && BeginsAt(s, i, start) == BeginsAt(s[n..], i - n, next)
    ensures SafeFrom(s[n..], next) <==>
      forall i | n <= i < |s| && !InExpression(s, i) ::
        !StartsExpression(s[i..]) && !(IsMark(s[i]) && BeginsAt(s, i, start))
  {
    hide InExpression, BeginsAt, StartsExpression;
    var t := s[n..];
    if SafeFrom(t, next) {
      forall i | n <= i < |s| && !InExpression(s, i)
        ensures !StartsExpression(s[i..]) && !(IsMark(s[i]) && BeginsAt(s, i, start))
      {
        assert t[i - n] == s[i];
      }
    }
    if forall i | n <= i < |s| && !InExpression(s, i) ::
        !StartsExpression(s[i..]) && !(IsMark(s[i]) && BeginsAt(s, i, start)) {
      forall k | 0 <= k < |t| && !InExpression(t, k)
        ensures !StartsExpression(t[k..]) && !(IsMark(t[k]) && BeginsAt(t, k, next))
      {
        assert t[k] == s[n + k];
      }
    }
  }

  lemma {:induction false} MarksByPosition(s: string, start: bool)
    ensures SafeFrom(s, start) <==> WithoutExpressions(s).Some? && !HasMark(WithoutExpressions(s).value, start)
    decreases |s|
  {
    if s != "" {
      SafeStep(s, start);
      hide SafeFrom, IndexClose;
      if !StartsExpression(s) {
        MarksByPosition(s[1..], IsSpace(s[0]));
        var rest := WithoutExpressions(s[1..]);
        if rest.Some? { assert ([s[0]] + rest.value)[1..] == rest.value; }
      } else if ExpressionLength(s).Some? {
        MarksByPosition(s[ExpressionLength(s).value..], true);
        var rest := WithoutExpressions(s[ExpressionLength(s).value..]);
        if rest.Some? { assert (" " + rest.value)[1..] == rest.value; }
      }
    }
  }

  /** A scalar is refused exactly if an expression in it stays open or a field
      outside its expressions begins with a mark. */
  lemma UnsafeByPosition(s: string)
    ensures UnsafeScalar(s) <==> !SafeText(s)
  {
    MarksByPosition(s, true);
    assert SafeText(s) <==> SafeFrom(s, true);
  }

  // ----- Comments -----

  lemma {:induction false} CloseBefore(s: string, after: string)
    requires IndexClose(s).Some?
    ensures IndexClose(s + after) == IndexClose(s)
  {
    var text := s + after;
    assert text[0] == s[0] && text[1] == s[1];
    if !(s[0] == '}' && s[1] == '}') {
      assert text[1..] == s[1..] + after;
      CloseBefore(s[1..], after);
    }
  }

  /** A blank after the text changes no step over it. */
  lemma StepBefore(s: string, blank: bool, q: Quote, flow: seq<char>, after: string)
    requires s != "" && after != "" && after[0] == ' ' && StepComment(s, blank, q, flow).CommentNext?
    ensures StepComment(s + after, blank, q, flow) == StepComment(s, blank, q, flow)
  {
    var text := s + after;
    assert text[0] == s[0] && text[1] == if |s| > 1 then s[1] else ' ';
    assert |s| > 2 ==> text[2] == s[2];
    assert |s| == 2 ==> text[2] == ' ';
    assert StartsExpression(text) == StartsExpression(s);
    if StartsExpression(s) && ExpressionLength(s).Some? {
      assert text[3..] == s[3..] + after;
      CloseBefore(s[3..], after);
    }
  }

  lemma PassesOn(s: string, blank: bool, q: Quote, flow: seq<char>)
    requires s != "" && Sanitized(s, blank, q, flow) == Some(|s|)
    ensures var step := StepComment(s, blank, q, flow);
      step.CommentNext? && Sanitized(s[step.count..], step.blank, step.quote, step.flow) == Some(|s| - step.count)
  {
    hide StepComment;
  }

  lemma PassesNothing(blank: bool, q: Quote, flow: seq<char>, after: string)
    requires Sanitized("", blank, q, flow) == Some(0) && |after| >= 2 && after[0] == ' ' && after[1] == '#'
    ensures Sanitized("" + after, blank, q, flow) == Some(1)
  {
    assert "" + after == after && after[1..][0] == '#';
    assert Sanitized(after[1..], true, Outside, []) == Some(0);
  }

  /** A comment after a blank is cut from a line that passes whole without it. */
  lemma {:induction false} CommentCut(s: string, blank: bool, q: Quote, flow: seq<char>, after: string)
    requires Sanitized(s, blank, q, flow) == Some(|s|) && |after| >= 2 && after[0] == ' ' && after[1] == '#'
    ensures Sanitized(s + after, blank, q, flow) == Some(|s| + 1)
    decreases |s|
  {
    hide *;
    if s == "" {
      PassesNothing(blank, q, flow, after);
    } else {
      PassesOn(s, blank, q, flow);
      var text, step := s + after, StepComment(s, blank, q, flow);
      StepBefore(s, blank, q, flow, after);
      assert text[0..] == text;
      SanitizedAt(text, 0, blank, q, flow);
      assert text[step.count..] == s[step.count..] + after;
      CommentCut(s[step.count..], step.blank, step.quote, step.flow, after);
      PlusSome(step.count, |s| - step.count + 1);
    }
  }

  lemma PlusSome(a: nat, b: nat)
    ensures Plus(a, Some(b)) == Some(a + b)
  {
  }
}
