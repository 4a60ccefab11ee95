/** Quoting for the remote shell: an encoder and the word scanner of sections
    2.2.1 and 2.2.2 of the POSIX.1-2017 Shell Command Language. A character
    stands for a byte. */
module ShellQuoting {
  import opened Wrappers

  const MAX_COMMAND_BYTES := 32768

  function ReplaceQuotes(value: string): string {
    if value == "" then ""
    else if value[0] == '\'' then "'\\''" + ReplaceQuotes(value[1..])
    else [value[0]] + ReplaceQuotes(value[1..])
  }

  function Quote(value: string): string { "'" + ReplaceQuotes(value) + "'" }

  // ----- The shell's side -----

  datatype Mode = Unquoted | SingleQuoted

  /** A word and the text after it, or text no shell reads as a word. */
  datatype Scanned = Word(word: string, rest: string) | Unterminated | HasNul

  /** Unquoted characters that stand for themselves. */
  predicate Ordinary(c: char) {
    'a' <= c <= 'z' || 'A' <= c <= 'Z' || '0' <= c <= '9' || c in "_-./,:@%+="
  }

  /** Reads on from `text`, with `word` read so far. Single quotes keep every
      character up to the next quote; an unquoted backslash keeps the next
      character, or joins lines before a newline; the word ends before the first
      unquoted character that is not ordinary. */
  function Scan(text: string, mode: Mode, word: string): Scanned {
    if text == "" then (if mode == Unquoted then Word(word, "") else Unterminated)
    else if text[0] == '\0' then HasNul
    else if mode == SingleQuoted then
      if text[0] == '\'' then Scan(text[1..], Unquoted, word) else Scan(text[1..], SingleQuoted, word + [text[0]])
    else if text[0] == '\'' then Scan(text[1..], SingleQuoted, word)
    else if text[0] == '\\' then
      if |text| == 1 then Unterminated
      else if text[1] == '\0' then HasNul
      else if text[1] == '\n' then Scan(text[2..], Unquoted, word)
      else Scan(text[2..], Unquoted, word + [text[1]])
    else if Ordinary(text[0]) then Scan(text[1..], Unquoted, word + [text[0]])
    else Word(word, text)
  }

  predicate NulFree(value: string) { '\0' !in value }

  lemma {:induction false} ScanReplaced(value: string, rest: string, word: string)
    requires NulFree(value)
    ensures Scan(ReplaceQuotes(value) + "'" + rest, SingleQuoted, word) == Scan(rest, Unquoted, word + value)
    decreases |value|
  {
    var tail := "'" + rest;
    if value == "" {
      assert ReplaceQuotes(value) + "'" + rest == tail;
      assert tail[1..] == rest && word + value == word;
    } else {
      var more := ReplaceQuotes(value[1..]) + "'" + rest;
      var text := ReplaceQuotes(value) + "'" + rest;
      if value[0] == '\'' {
        assert text == "'\\''" + more;
        ScanEscapedQuote(more, word);
      } else {
        assert text == [value[0]] + more;
        assert text[1..] == more;
      }
      ScanReplaced(value[1..], rest, word + [value[0]]);
      assert word + [value[0]] + value[1..] == word + value;
    }
  }

  lemma ScanEscapedQuote(more: string, word: string)
    ensures Scan("'\\''" + more, SingleQuoted, word) == Scan(more, SingleQuoted, word + ['\''])
  {
    var text := "'\\''" + more;
    assert text[0] == '\'' && text[1..] == "\\''" + more;
    var second := "\\''" + more;
    assert second[0] == '\\' && second[1] == '\'' && second[2..] == "'" + more;
    var third := "'" + more;
    assert third[0] == '\'' && third[1..] == more;
    assert Scan(text, SingleQuoted, word) == Scan(second, Unquoted, word);
    assert Scan(second, Unquoted, word) == Scan(third, Unquoted, word + ['\'']);
    assert Scan(third, Unquoted, word + ['\'']) == Scan(more, SingleQuoted, word + ['\'']);
  }

  /** The scanner reads the quoted form of a NUL-free value as that value, and
      goes on unquoted with whatever text follows. */
  lemma QuoteRoundTrip(value: string, rest: string, word: string)
    requires NulFree(value)
    ensures Scan(Quote(value) + rest, Unquoted, word) == Scan(rest, Unquoted, word + value)
  {
    var text := Quote(value) + rest;
    assert text[0] == '\'' && text[1..] == ReplaceQuotes(value) + "'" + rest;
    ScanReplaced(value, rest, word);
  }

  lemma {:induction false} ScanReplacedNul(value: string, rest: string, word: string)
    requires !NulFree(value)
    ensures Scan(ReplaceQuotes(value) + "'" + rest, SingleQuoted, word) == HasNul
    decreases |value|
  {
    var more := ReplaceQuotes(value[1..]) + "'" + rest;
    var text := ReplaceQuotes(value) + "'" + rest;
    assert value == [value[0]] + value[1..];
    if value[0] == '\'' {
      assert text == "'\\''" + more;
      ScanEscapedQuote(more, word);
      ScanReplacedNul(value[1..], rest, word + ['\'']);
    } else {
      assert text == [value[0]] + more;
      assert text[1..] == more;
      if value[0] != '\0' { ScanReplacedNul(value[1..], rest, word + [value[0]]); }
    }
  }

  /** As one word before a blank, the quoted form reads back exactly when the
      value has no NUL in it. */
  lemma QuoteReadsBack(value: string, rest: string)
    ensures Scan(Quote(value) + " " + rest, Unquoted, "") == Word(value, " " + rest) <==> NulFree(value)
  {
    var after := " " + rest;
    var text := Quote(value) + " " + rest;
    assert text == Quote(value) + after;
    if NulFree(value) {
      QuoteRoundTrip(value, after, "");
      assert "" + value == value;
    } else {
      assert text[0] == '\'' && text[1..] == ReplaceQuotes(value) + "'" + after;
      ScanReplacedNul(value, after, "");
    }
  }

  // ----- The bootstrap command -----

  const BOOTSTRAP_HEAD := "case ${SHELL-} in /*) cd "
  const BOOTSTRAP_COMMANDS :=
    "&& /usr/bin/printf '%s\\n' amsftp-shell-wire-v1 && IFS= read -r AMSFTP_COMMAND " +
    "&& exec \"$SHELL\" -c \"$AMSFTP_COMMAND\";; *) exit 126;; esac"

  const BOOTSTRAP_TAIL := " " + BOOTSTRAP_COMMANDS

  /** `clean` says whether the path is its own lexical normal form. */
  function Bootstrap(cwd: string, clean: bool): Option<string> {
    if cwd == "" || MAX_COMMAND_BYTES < |cwd| || cwd[0] != '/' || !clean || !NulFree(cwd) then None
    else
      var text := BOOTSTRAP_HEAD + Quote(cwd) + BOOTSTRAP_TAIL;
      if MAX_COMMAND_BYTES < |text| then None else Some(text)
  }

  /** In a bootstrap, the shell reads the argument of `cd` as exactly the path. */
  lemma BootstrapChangesToPath(cwd: string, clean: bool)
    requires Bootstrap(cwd, clean).Some?
    ensures BOOTSTRAP_HEAD <= Bootstrap(cwd, clean).value
    ensures Scan(Bootstrap(cwd, clean).value[|BOOTSTRAP_HEAD|..], Unquoted, "") == Word(cwd, BOOTSTRAP_TAIL)
  {
    var text := Bootstrap(cwd, clean).value;
    var tail := BOOTSTRAP_TAIL;
    hide BOOTSTRAP_HEAD, BOOTSTRAP_COMMANDS, Quote;
    assert tail[0] == ' ';
    assert text[|BOOTSTRAP_HEAD|..] == Quote(cwd) + tail;
    QuoteRoundTrip(cwd, tail, "");
    assert "" + cwd == cwd;
  }
}
