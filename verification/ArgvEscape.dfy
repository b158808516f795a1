/**
 * Quoting for the standard Windows argument parser: what `escapeArgvToken` writes, the rules of
 * Microsoft's "Parsing C command-line arguments" read back.
 */
module ArgvEscape {
  // ----- the parser

  predicate IsBlank(c: char) {
    c == ' ' || c == '\t'
  }

  function Backslashes(n: nat): (s: string)
    ensures |s| == n && forall i :: 0 <= i < n ==> s[i] == '\\'
  {
    seq(n, _ => '\\')
  }

  /** The length of the run of backslashes `s` begins with. */
  function LeadingBackslashes(s: string): (n: nat)
    ensures n <= |s| && s[..n] == Backslashes(n) && (n < |s| ==> s[n] != '\\')
  {
    if s != "" && s[0] == '\\' then
      var n := 1 + LeadingBackslashes(s[1..]);
      assert s[..n] == ['\\'] + s[1..][..n - 1];
      n
    else 0
  }

  datatype Reading = Reading(arg: string, rest: string)

  function Prepend(text: string, r: Reading): Reading {
    r.(arg := text + r.arg)
  }

  /**
   * The rest of an argument, inside or outside a quoted part, and what follows it. Backslashes are
   * literal unless a double quote follows: then each pair gives one backslash, and an odd one out makes
   * the quote literal. Inside a quoted part a pair of quotes is one literal quote.
   */
  function ReadArg(s: string, quoted: bool): Reading
    decreases |s|
  {
    if s == "" || (!quoted && IsBlank(s[0])) then Reading("", s)
    else
      var n := LeadingBackslashes(s);
      var t := s[n..];
      if t != "" && t[0] == '"' then
        if n % 2 == 1 then Prepend(Backslashes(n / 2) + "\"", ReadArg(t[1..], quoted))
        else if quoted && |t| > 1 && t[1] == '"' then Prepend(Backslashes(n / 2) + "\"", ReadArg(t[2..], true))
        else Prepend(Backslashes(n / 2), ReadArg(t[1..], !quoted))
      else if n > 0 then Prepend(Backslashes(n), ReadArg(t, quoted))
      else Prepend([s[0]], ReadArg(s[1..], quoted))
  }

  lemma {:induction false} ReadArgShortens(s: string, quoted: bool)
    ensures |ReadArg(s, quoted).rest| <= |s|
    ensures s != "" && (quoted || !IsBlank(s[0])) ==> |ReadArg(s, quoted).rest| < |s|
    decreases |s|
  {
    if s != "" && (quoted || !IsBlank(s[0])) {
      var n := LeadingBackslashes(s);
      var t := s[n..];
      if t != "" && t[0] == '"' {
        ReadArgShortens(t[1..], quoted);
        ReadArgShortens(t[1..], !quoted);
        if |t| > 1 {
          ReadArgShortens(t[2..], true);
        }
      } else if n > 0 {
        ReadArgShortens(t, quoted);
      } else {
        ReadArgShortens(s[1..], quoted);
      }
    }
  }

  /** The arguments of a command line, separated by blanks. */
  function SplitArgs(s: string): seq<string>
    decreases |s|
  {
    if s == "" then []
    else if IsBlank(s[0]) then SplitArgs(s[1..])
    else
      ReadArgShortens(s, false);
      [ReadArg(s, false).arg] + SplitArgs(ReadArg(s, false).rest)
  }

  /** The program name has no escapes: its quotes only shield blanks and are dropped. */
  function ReadProgram(s: string, quoted: bool): (r: Reading)
    ensures '"' !in r.arg
  {
    if s == "" || (!quoted && IsBlank(s[0])) then Reading("", s)
    else if s[0] == '"' then ReadProgram(s[1..], !quoted)
    else Prepend([s[0]], ReadProgram(s[1..], quoted))
  }

  function ParseCommandLine(s: string): seq<string> {
    [ReadProgram(s, false).arg] + SplitArgs(ReadProgram(s, false).rest)
  }

  // ----- quoting

  /** Inside quotes, `text` reads as `value` whatever follows. */
  ghost predicate ReadsAs(text: string, value: string) {
    forall tail :: ReadsBefore(text, value, tail)
  }

  ghost predicate ReadsBefore(text: string, value: string, tail: string) {
    ReadArg(text + tail, true) == Prepend(value, ReadArg(tail, true))
  }

  /** `token` is one whole argument, `value`. */
  ghost predicate Escapes(token: string, value: string) {
    && |token| >= 2 && token[0] == '"' && token[|token| - 1] == '"'
    && forall tail :: EndsArgument(tail) ==> ReadsWhole(token, value, tail)
  }

  predicate EndsArgument(tail: string) {
    tail == "" || tail[0] == ' '
  }

  ghost predicate ReadsWhole(token: string, value: string, tail: string) {
    ReadArg(token + tail, false) == Reading(value, tail)
  }

  lemma ReadsBeforeAppend(text: string, value: string, more: string, moreValue: string, tail: string)
    requires ReadsBefore(text, value, more + tail) && ReadsBefore(more, moreValue, tail)
    ensures ReadsBefore(text + more, value + moreValue, tail)
  {
    assert text + more + tail == text + (more + tail);
    assert value + (moreValue + ReadArg(tail, true).arg) == value + moreValue + ReadArg(tail, true).arg;
  }

  lemma ReadsAsAppend(text: string, value: string, more: string, moreValue: string)
    requires ReadsAs(text, value) && ReadsAs(more, moreValue)
    ensures ReadsAs(text + more, value + moreValue)
  {
    forall tail: string
      ensures ReadsBefore(text + more, value + moreValue, tail)
    {
      ReadsBeforeAppend(text, value, more, moreValue, tail);
    }
  }

  lemma NothingReadsAs()
    ensures ReadsAs("", "")
  {
    forall tail: string
      ensures ReadsBefore("", "", tail)
    {
      assert "" + tail == tail;
    }
  }

  lemma LeadingIs(n: nat, t: string)
    requires t == "" || t[0] != '\\'
    ensures LeadingBackslashes(Backslashes(n) + t) == n && (Backslashes(n) + t)[n..] == t
  {
    var s := Backslashes(n) + t;
    var m := LeadingBackslashes(s);
    assert forall i :: 0 <= i < m ==> s[..m][i] == s[i] == '\\';
    assert m >= n;
    assert |s| > n ==> s[n] == t[0];
  }

  /** A run of `n` backslashes before a quote, read inside quotes. */
  lemma RunBeforeQuote(n: nat, tail: string)
    ensures n % 2 == 1 ==> ReadArg(Backslashes(n) + ("\"" + tail), true) == Prepend(Backslashes(n / 2) + "\"", ReadArg(tail, true))
    ensures n % 2 == 0 && (tail == "" || tail[0] != '"') ==>
      ReadArg(Backslashes(n) + ("\"" + tail), true) == Prepend(Backslashes(n / 2), ReadArg(tail, false))
  {
    LeadingIs(n, "\"" + tail);
    assert ("\"" + tail)[1..] == tail;
  }

  /** A run of `n` backslashes before any other character. */
  lemma RunBeforeOther(n: nat, ch: char, tail: string)
    requires ch != '\\' && ch != '"'
    ensures ReadArg(Backslashes(n) + ([ch] + tail), true) == Prepend(Backslashes(n), ReadArg([ch] + tail, true))
  {
    LeadingIs(n, [ch] + tail);
    if n == 0 {
      assert Backslashes(0) + ([ch] + tail) == [ch] + tail;
    }
  }

  lemma OneOther(ch: char, tail: string)
    requires ch != '\\' && ch != '"'
    ensures ReadArg([ch] + tail, true) == Prepend([ch], ReadArg(tail, true))
  {
    LeadingIs(0, [ch] + tail);
    assert Backslashes(0) + ([ch] + tail) == [ch] + tail;
    assert ([ch] + tail)[1..] == tail;
  }

  lemma ReadsVia(text: string, value: string, tail: string, whole: string)
    requires text + tail == whole && ReadArg(whole, true) == Prepend(value, ReadArg(tail, true))
    ensures ReadsBefore(text, value, tail)
  {
  }

  /** 2n + 1 backslashes and a quote are n backslashes and a quote. */
  lemma QuoteReadsAs(n: nat)
    ensures ReadsAs(Backslashes(2 * n + 1) + "\"", Backslashes(n) + "\"")
  {
    var text, value := Backslashes(2 * n + 1) + "\"", Backslashes(n) + "\"";
    forall tail: string
      ensures ReadsBefore(text, value, tail)
    {
      RunBeforeQuote(2 * n + 1, tail);
      ReadsVia(text, value, tail, Backslashes(2 * n + 1) + ("\"" + tail));
    }
  }

  lemma RunAndOther(n: nat, ch: char, tail: string)
    requires ch != '\\' && ch != '"'
    ensures ReadArg(Backslashes(n) + ([ch] + tail), true) == Prepend(Backslashes(n) + [ch], ReadArg(tail, true))
  {
    RunBeforeOther(n, ch, tail);
    OneOther(ch, tail);
    var arg := ReadArg(tail, true).arg;
    assert Backslashes(n) + ([ch] + arg) == Backslashes(n) + [ch] + arg;
  }

  /** Backslashes before any other character are themselves. */
  lemma OtherReadsAs(n: nat, ch: char)
    requires ch != '\\' && ch != '"'
    ensures ReadsAs(Backslashes(n) + [ch], Backslashes(n) + [ch])
  {
    var text := Backslashes(n) + [ch];
    forall tail: string
      ensures ReadsBefore(text, text, tail)
    {
      RunAndOther(n, ch, tail);
      ReadsVia(text, text, tail, Backslashes(n) + ([ch] + tail));
    }
  }

  /** Doubled backslashes before the closing quote are themselves. */
  lemma ClosingReads(n: nat, tail: string)
    requires EndsArgument(tail)
    ensures ReadArg(Backslashes(2 * n) + ("\"" + tail), true) == Reading(Backslashes(n), tail)
  {
    RunBeforeQuote(2 * n, tail);
    assert Backslashes(n) + "" == Backslashes(n);
  }

  lemma OpeningReads(whole: string, s: string)
    requires whole != "" && whole[0] == '"' && whole[1..] == s
    ensures ReadArg(whole, false) == ReadArg(s, true)
  {
    LeadingIs(0, whole);
    assert Backslashes(0) + whole == whole;
    assert Backslashes(0) + ReadArg(s, true).arg == ReadArg(s, true).arg;
  }

  lemma WholeToken(text: string, value: string, n: nat)
    requires ReadsAs(text, value)
    ensures Escapes("\"" + (text + Backslashes(2 * n)) + "\"", value + Backslashes(n))
  {
    var token := "\"" + (text + Backslashes(2 * n)) + "\"";
    forall tail | EndsArgument(tail)
      ensures ReadsWhole(token, value + Backslashes(n), tail)
    {
      var inner := Backslashes(2 * n) + ("\"" + tail);
      assert token + tail == "\"" + (text + inner);
      OpeningReads(token + tail, text + inner);
      ClosingReads(n, tail);
      assert ReadsBefore(text, value, inner);
    }
  }

  function TrailingBackslashes(s: string): (n: nat)
    ensures n <= |s|
  {
    if s != "" && s[|s| - 1] == '\\' then 1 + TrailingBackslashes(s[..|s| - 1]) else 0
  }

  lemma {:induction false} TrailingIs(s: string, n: nat)
    requires s == "" || s[|s| - 1] != '\\'
    ensures TrailingBackslashes(s + Backslashes(n)) == n
  {
    if n > 0 {
      TrailingIs(s, n - 1);
      var whole := s + Backslashes(n);
      assert whole[..|whole| - 1] == s + Backslashes(n - 1);
    } else {
      assert s + Backslashes(0) == s;
    }
  }

  /** Always quoted; without quotes of its own, `value` changes only by its doubled trailing backslashes. */
  method EscapeArgvToken(value: string) returns (token: string)
    ensures Escapes(token, value)
    ensures '"' !in value ==> token == "\"" + (value + Backslashes(TrailingBackslashes(value))) + "\""
  {
    var result, backslashes: nat := "", 0;
    ghost var done := "";
    NothingReadsAs();
    for k := 0 to |value|
      invariant backslashes <= k && value[..k] == done + Backslashes(backslashes)
      invariant ReadsAs(result, done) && (done == "" || done[|done| - 1] != '\\')
      invariant '"' !in value[..k] ==> result == done
    {
      var ch := value[k];
      assert value[..k + 1] == value[..k] + [ch];
      if ch == '\\' {
        assert Backslashes(backslashes + 1) == Backslashes(backslashes) + [ch];
        backslashes := backslashes + 1;
        continue;
      }
      ghost var was, read := done, Backslashes(backslashes) + [ch];
      if ch == '"' {
        QuoteReadsAs(backslashes);
        ReadsAsAppend(result, done, Backslashes(2 * backslashes + 1) + "\"", read);
        result := result + (Backslashes(backslashes * 2 + 1) + "\"");
      } else {
        OtherReadsAs(backslashes, ch);
        ReadsAsAppend(result, done, read, read);
        result := result + (Backslashes(backslashes) + [ch]);
      }
      done := done + read;
      assert done == was + Backslashes(backslashes) + [ch];
      backslashes := 0;
    }
    assert value[..|value|] == value;
    WholeToken(result, done, backslashes);
    TrailingIs(done, backslashes);
    assert done + Backslashes(backslashes * 2) == value + Backslashes(backslashes);
    result := result + Backslashes(backslashes * 2);
    return "\"" + result + "\"";
  }

  // ----- the command line

  function JoinSpaced(tokens: seq<string>): string {
    if tokens == [] then ""
    else if |tokens| == 1 then tokens[0]
    else tokens[0] + (" " + JoinSpaced(tokens[1..]))
  }

  function AfterFirst(tokens: seq<string>): string {
    if |tokens| <= 1 then "" else " " + JoinSpaced(tokens[1..])
  }

  lemma JoinedAfterFirst(tokens: seq<string>)
    requires tokens != []
    ensures JoinSpaced(tokens) == tokens[0] + AfterFirst(tokens) && EndsArgument(AfterFirst(tokens))
    ensures SplitArgs(AfterFirst(tokens)) == SplitArgs(JoinSpaced(tokens[1..]))
  {
    if |tokens| == 1 {
      assert tokens[0] + "" == tokens[0];
    } else {
      var rest := JoinSpaced(tokens[1..]);
      assert (" " + rest)[1..] == rest;
    }
  }

  ghost predicate EscapesAll(tokens: seq<string>, args: seq<string>) {
    |tokens| == |args| && forall i :: 0 <= i < |tokens| ==> Escapes(tokens[i], args[i])
  }

  /** Escaping then splitting is the identity, on every list of arguments. */
  lemma {:induction false} JoinedSplits(tokens: seq<string>, args: seq<string>)
    requires EscapesAll(tokens, args)
    ensures SplitArgs(JoinSpaced(tokens)) == args
  {
    if tokens != [] {
      JoinedAfterFirst(tokens);
      JoinedSplits(tokens[1..], args[1..]);
      assert ReadsWhole(tokens[0], args[0], AfterFirst(tokens));
      assert args == [args[0]] + args[1..];
    }
  }

  /** A program name that needs no escape. */
  predicate PlainProgram(command: string) {
    '"' !in command && TrailingBackslashes(command) == 0
  }

  lemma {:induction false} ReadProgramQuoted(name: string, tail: string)
    requires '"' !in name && EndsArgument(tail)
    ensures ReadProgram(name + ("\"" + tail), true) == Reading(name, tail)
  {
    var s := name + ("\"" + tail);
    if name == "" {
      assert s[1..] == tail;
    } else {
      ReadProgramQuoted(name[1..], tail);
      assert s[1..] == name[1..] + ("\"" + tail);
      assert [name[0]] + name[1..] == name;
    }
  }

  lemma ProgramLine(line: string, name: string, tail: string)
    requires '"' !in name && EndsArgument(tail) && line == "\"" + name + "\"" + tail
    ensures ParseCommandLine(line) == [name] + SplitArgs(tail)
  {
    ReadProgramQuoted(name, tail);
    assert line[0] == '"' && line[1..] == name + ("\"" + tail);
  }

  lemma ProgramHasNoQuotes(line: string)
    ensures '"' !in ParseCommandLine(line)[0]
  {
  }

  /** As the program name, which knows no escapes, the first token reads back exactly when it needed none. */
  lemma ProgramNameRoundTripsIff(tokens: seq<string>, args: seq<string>)
    requires tokens != [] && EscapesAll(tokens, args)
    requires '"' !in args[0] ==> tokens[0] == "\"" + (args[0] + Backslashes(TrailingBackslashes(args[0]))) + "\""
    ensures ParseCommandLine(JoinSpaced(tokens)) == args <==> PlainProgram(args[0])
  {
    var line, tail := JoinSpaced(tokens), AfterFirst(tokens);
    JoinedAfterFirst(tokens);
    JoinedSplits(tokens[1..], args[1..]);
    assert args == [args[0]] + args[1..];
    if '"' !in args[0] {
      var name := args[0] + Backslashes(TrailingBackslashes(args[0]));
      assert line == "\"" + name + "\"" + tail;
      ProgramLine(line, name, tail);
      assert name == args[0] <==> TrailingBackslashes(args[0]) == 0;
    } else {
      ProgramHasNoQuotes(line);
    }
  }

  method BuildBatchCommandLine(command: string, args: seq<string>) returns (line: string)
    ensures |line| >= 2 && line[0] == '"' && line[|line| - 1] == '"'
    ensures SplitArgs(line[1..|line| - 1]) == [command] + args
    ensures ParseCommandLine(line[1..|line| - 1]) == [command] + args <==> PlainProgram(command)
  {
    var all := [command] + args;
    var tokens := [];
    for k := 0 to |all|
      invariant |tokens| == k && forall i :: 0 <= i < k ==> Escapes(tokens[i], all[i])
      invariant k > 0 && '"' !in command ==> tokens[0] == "\"" + (command + Backslashes(TrailingBackslashes(command))) + "\""
    {
      var token := EscapeArgvToken(all[k]);
      tokens := tokens + [token];
    }
    JoinedSplits(tokens, all);
    ProgramNameRoundTripsIff(tokens, all);
    line := "\"" + JoinSpaced(tokens) + "\"";
    assert line[1..|line| - 1] == JoinSpaced(tokens);
  }
}
