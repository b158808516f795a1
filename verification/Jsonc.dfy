/**
 * Settings files as the editor reads them: JSON with comments and trailing commas. What the two
 * passes that make plain JSON of one do to its tokens.
 */
module Jsonc {
  import opened Strings
  import opened Wrappers

  // ----- the passes on text

  predicate IsCloser(c: char) {
    c == '}' || c == ']'
  }

  /** The length of the rest of a string literal, past its closing quote; one too long when an escape is cut off. */
  function LiteralRest(s: string): (n: nat)
    ensures n <= |s| + 1
  {
    if s == "" then 0
    else if s[0] == '\\' then if |s| == 1 then 2 else 2 + LiteralRest(s[2..])
    else if s[0] == '"' then 1
    else 1 + LiteralRest(s[1..])
  }

  function Min(a: nat, b: nat): nat {
    if a < b then a else b
  }

  /** The length of the literal that opens `s`, cut at the end of the text. */
  function Literal(s: string): (n: nat)
    requires s != "" && s[0] == '"'
    ensures 0 < n <= |s|
  {
    Min(1 + LiteralRest(s[1..]), |s|)
  }

  /** Where the line ends. */
  function LineEnd(s: string): (n: nat)
    ensures n <= |s| && (n < |s| ==> s[n] == '\n') && '\n' !in s[..n]
  {
    if s == "" || s[0] == '\n' then 0
    else
      var n := LineEnd(s[1..]);
      assert s[..n + 1] == [s[0]] + s[1..][..n];
      n + 1
  }

  /** Past the first "*\/", or the end. */
  function BlockEnd(s: string): (n: nat)
    ensures n <= |s|
  {
    if |s| < 2 then |s| else if s[0] == '*' && s[1] == '/' then 2 else 1 + BlockEnd(s[1..])
  }

  function StripComments(s: string): string
    decreases |s|
  {
    if s == "" then ""
    else if s[0] == '"' then s[..Literal(s)] + StripComments(s[Literal(s)..])
    else if |s| > 1 && s[0] == '/' && s[1] == '/' then
      LineEndPastSlashes(s);
      StripComments(s[LineEnd(s)..])
    else if |s| > 1 && s[0] == '/' && s[1] == '*' then " " + StripComments(s[2 + BlockEnd(s[2..])..])
    else [s[0]] + StripComments(s[1..])
  }

  lemma LineEndPastSlashes(s: string)
    requires |s| > 1 && s[0] == '/' && s[1] == '/'
    ensures LineEnd(s) >= 2
  {
    assert LineEnd(s) == 1 + LineEnd(s[1..]) && LineEnd(s[1..]) == 1 + LineEnd(s[1..][1..]);
  }

  /** After blanks, a closing brace or bracket. */
  predicate ClosesNext(s: string) {
    s != "" && (IsCloser(s[0]) || (IsSpace(s[0]) && ClosesNext(s[1..])))
  }

  function StripCommas(s: string): string
    decreases |s|
  {
    if s == "" then ""
    else if s[0] == '"' then s[..Literal(s)] + StripCommas(s[Literal(s)..])
    else if s[0] == ',' && ClosesNext(s[1..]) then StripCommas(s[1..])
    else [s[0]] + StripCommas(s[1..])
  }

  // ----- documents

  /** `Word` is one character of a number, of a bare word, a colon or an opening brace or bracket. */
  datatype Item =
    | Text(literal: string)
    | Word(c: char)
    | Comma
    | Closer(c: char)
    | White(c: char)
    | LineComment(text: string)
    | BlockComment(text: string)

  /** A string literal after its opening quote: characters and escapes (RFC 8259, section 7), and the closing quote. */
  predicate IsLiteralRest(s: string) {
    if s == "" then false
    else if s[0] == '"' then |s| == 1
    else if s[0] == '\\' then |s| > 1 && IsLiteralRest(s[2..])
    else IsLiteralRest(s[1..])
  }

  predicate Ok(item: Item) {
    match item
    case Text(literal) => literal != "" && literal[0] == '"' && IsLiteralRest(literal[1..])
    case Word(c) => c != '"' && c != '/' && c != ',' && !IsCloser(c) && !IsSpace(c)
    case Comma => true
    case Closer(c) => IsCloser(c)
    case White(c) => IsSpace(c)
    case LineComment(text) => '\n' !in text
    case BlockComment(text) => forall i :: 0 <= i < |text| - 1 ==> !(text[i] == '*' && text[i + 1] == '/')
  }

  predicate AllOk(items: seq<Item>) {
    forall i :: 0 <= i < |items| ==> Ok(items[i])
  }

  function Written(item: Item): string {
    match item
    case Text(literal) => literal
    case Word(c) => [c]
    case Comma => ","
    case Closer(c) => [c]
    case White(c) => [c]
    case LineComment(text) => "//" + (text + "\n")
    case BlockComment(text) => "/*" + (text + "*/")
  }

  function Render(items: seq<Item>): string {
    if items == [] then "" else Written(items[0]) + Render(items[1..])
  }

  /** A document; its last line may be a comment without a line break. */
  datatype Document = Document(items: seq<Item>, lastComment: Option<string>)

  function RenderDocument(d: Document): string {
    Render(d.items) + if d.lastComment.None? then "" else "//" + d.lastComment.value
  }

  predicate OkDocument(d: Document) {
    AllOk(d.items) && (d.lastComment.Some? ==> '\n' !in d.lastComment.value)
  }

  // ----- what the passes leave

  /** A line comment leaves its line break, a block comment a blank. */
  function Bare(item: Item): Item {
    match item
    case LineComment(_) => White('\n')
    case BlockComment(_) => White(' ')
    case _ => item
  }

  function Uncommented(items: seq<Item>): seq<Item> {
    if items == [] then [] else [Bare(items[0])] + Uncommented(items[1..])
  }

  /** The next item that is no blank closes. */
  predicate CloserNext(items: seq<Item>) {
    items != [] && (items[0].Closer? || (items[0].White? && CloserNext(items[1..])))
  }

  function WithoutTrailing(items: seq<Item>): seq<Item> {
    if items == [] then []
    else (if items[0].Comma? && CloserNext(items[1..]) then [] else [items[0]]) + WithoutTrailing(items[1..])
  }

  predicate Uncommentedly(items: seq<Item>) {
    forall i :: 0 <= i < |items| ==> !items[i].LineComment? && !items[i].BlockComment?
  }

  /** The JSON tokens, blanks and comments aside. */
  function Tokens(items: seq<Item>): seq<Item> {
    if items == [] then []
    else (if items[0].White? || items[0].LineComment? || items[0].BlockComment? then [] else [items[0]]) + Tokens(items[1..])
  }

  /** The tokens without each comma right before a closer. */
  function NoTrailingCommas(tokens: seq<Item>): seq<Item> {
    if tokens == [] then []
    else (if tokens[0].Comma? && |tokens| > 1 && tokens[1].Closer? then [] else [tokens[0]]) + NoTrailingCommas(tokens[1..])
  }

  // ----- proofs on items

  lemma {:induction false} LiteralRestEnds(s: string, rest: string)
    requires IsLiteralRest(s)
    ensures LiteralRest(s + rest) == |s|
    decreases |s|
  {
    if s[0] == '\\' {
      assert (s + rest)[2..] == s[2..] + rest;
      LiteralRestEnds(s[2..], rest);
    } else if s[0] != '"' {
      assert (s + rest)[1..] == s[1..] + rest;
      LiteralRestEnds(s[1..], rest);
    }
  }

  lemma LiteralEnds(literal: string, rest: string)
    requires Ok(Text(literal))
    ensures (literal + rest)[0] == '"' && Literal(literal + rest) == |literal|
    ensures (literal + rest)[..|literal|] == literal && (literal + rest)[|literal|..] == rest
  {
    assert (literal + rest)[1..] == literal[1..] + rest;
    LiteralRestEnds(literal[1..], rest);
  }

  lemma {:induction false} LineEndIs(text: string, rest: string)
    requires '\n' !in text && (rest == "" || rest[0] == '\n')
    ensures LineEnd(text + rest) == |text|
  {
    if text == "" {
      assert text + rest == rest;
    } else {
      assert (text + rest)[1..] == text[1..] + rest;
      LineEndIs(text[1..], rest);
    }
  }

  lemma {:induction false} BlockEndIs(text: string, rest: string)
    requires Ok(BlockComment(text))
    ensures BlockEnd(text + ("*/" + rest)) == |text| + 2
  {
    var s := text + ("*/" + rest);
    if text == "" {
      assert s == "*/" + rest;
    } else {
      assert s[1..] == text[1..] + ("*/" + rest);
      assert s[1] == if |text| > 1 then text[1] else '*';
      BlockEndIs(text[1..], rest);
    }
  }

  lemma AllOkRest(items: seq<Item>)
    requires items != [] && AllOk(items)
    ensures Ok(items[0]) && AllOk(items[1..])
  {
  }

  lemma StripLineComment(text: string, rest: string)
    requires Ok(LineComment(text))
    ensures StripComments("//" + (text + "\n") + rest) == "\n" + StripComments(rest)
  {
    var s, line, after := "//" + (text + "\n") + rest, "//" + text, "\n" + rest;
    assert s == line + after;
    LineEndIs(line, after);
    assert s[|line|..] == after && after[1..] == rest;
    StripOther(after);
  }

  lemma StripBlockComment(text: string, rest: string)
    requires Ok(BlockComment(text))
    ensures StripComments("/*" + (text + "*/") + rest) == " " + StripComments(rest)
  {
    var s, after := "/*" + (text + "*/") + rest, text + ("*/" + rest);
    assert s[2..] == after;
    BlockEndIs(text, rest);
    assert s[2 + (|text| + 2)..] == rest;
  }

  /** A character that opens neither a string nor a comment stays. */
  lemma StripOther(s: string)
    requires s != "" && s[0] != '"' && (s[0] == '/' && |s| > 1 ==> s[1] != '/' && s[1] != '*')
    ensures StripComments(s) == [s[0]] + StripComments(s[1..])
  {
  }

  /** What the first pass makes of one item, with `rest` after it. */
  lemma StripOneComment(item: Item, rest: string)
    requires Ok(item)
    ensures StripComments(Written(item) + rest) == Written(Bare(item)) + StripComments(rest)
  {
    match item
    case Text(literal) => LiteralEnds(literal, rest);
    case LineComment(text) => StripLineComment(text, rest);
    case BlockComment(text) => StripBlockComment(text, rest);
    case _ =>
      var s := Written(item) + rest;
      assert s[1..] == rest;
      StripOther(s);
  }

  lemma RenderCons(item: Item, items: seq<Item>)
    ensures Render([item] + items) == Written(item) + Render(items)
  {
    assert ([item] + items)[1..] == items;
  }

  lemma Associates(a: string, b: string, c: string)
    ensures a + b + c == a + (b + c)
  {
  }

  /** The first pass turns every comment into a blank and touches nothing else. */
  lemma {:induction false} StripsComments(items: seq<Item>, rest: string)
    requires AllOk(items)
    ensures StripComments(Render(items) + rest) == Render(Uncommented(items)) + StripComments(rest)
  {
    if items == [] {
      assert Render(items) + rest == rest;
    } else {
      AllOkRest(items);
      StripsComments(items[1..], rest);
      StripOneComment(items[0], Render(items[1..]) + rest);
      RenderCons(Bare(items[0]), Uncommented(items[1..]));
      Associates(Written(items[0]), Render(items[1..]), rest);
      Associates(Written(Bare(items[0])), Render(Uncommented(items[1..])), StripComments(rest));
    }
  }

  lemma {:induction false} CloserNextIs(items: seq<Item>)
    requires AllOk(items) && Uncommentedly(items)
    ensures ClosesNext(Render(items)) <==> CloserNext(items)
  {
    if items != [] {
      AllOkRest(items);
      CloserNextIs(items[1..]);
      FirstChar(items[0], Render(items[1..]));
    }
  }

  /** The character an item begins with tells blanks and closers from the rest. */
  lemma FirstChar(item: Item, rest: string)
    requires Ok(item) && !item.LineComment? && !item.BlockComment?
    ensures var s := Written(item) + rest;
      && s != "" && (IsCloser(s[0]) <==> item.Closer?) && (IsSpace(s[0]) <==> item.White?)
      && (item.White? ==> s[1..] == rest)
  {
  }

  lemma StripOneComma(item: Item, rest: string)
    requires Ok(item) && !item.LineComment? && !item.BlockComment?
    ensures StripCommas(Written(item) + rest)
         == (if item.Comma? && ClosesNext(rest) then "" else Written(item)) + StripCommas(rest)
  {
    var s := Written(item) + rest;
    if item.Text? {
      LiteralEnds(item.literal, rest);
    } else {
      assert s[1..] == rest;
    }
  }

  /** The second pass deletes exactly the commas with nothing but blanks before a closer. */
  lemma {:induction false} StripsTrailingCommas(items: seq<Item>)
    requires AllOk(items) && Uncommentedly(items)
    ensures StripCommas(Render(items)) == Render(WithoutTrailing(items))
  {
    if items != [] {
      AllOkRest(items);
      StripOneComma(items[0], Render(items[1..]));
      StripsTrailingCommas(items[1..]);
      CloserNextIs(items[1..]);
      RenderCons(items[0], WithoutTrailing(items[1..]));
      assert [] + WithoutTrailing(items[1..]) == WithoutTrailing(items[1..]);
      assert "" + StripCommas(Render(items[1..])) == StripCommas(Render(items[1..]));
    }
  }

  lemma {:induction false} UncommentedIsOk(items: seq<Item>)
    requires AllOk(items)
    ensures AllOk(Uncommented(items)) && Uncommentedly(Uncommented(items))
    ensures Tokens(Uncommented(items)) == Tokens(items)
  {
    if items != [] {
      AllOkRest(items);
      UncommentedIsOk(items[1..]);
      assert Ok(Bare(items[0]));
    }
  }

  lemma {:induction false} CloserNextIsToken(items: seq<Item>)
    requires Uncommentedly(items)
    ensures CloserNext(items) <==> Tokens(items) != [] && Tokens(items)[0].Closer?
  {
    if items != [] {
      CloserNextIsToken(items[1..]);
    }
  }

  lemma {:induction false} TokensWithoutTrailing(items: seq<Item>)
    requires Uncommentedly(items)
    ensures Tokens(WithoutTrailing(items)) == NoTrailingCommas(Tokens(items))
  {
    if items != [] {
      var first, rest := items[0], items[1..];
      TokensWithoutTrailing(rest);
      CloserNextIsToken(rest);
      TokensCons(first, rest);
      TokensCons(first, WithoutTrailing(rest));
      assert [first] + rest == items;
      if first.Comma? && CloserNext(rest) {
        assert WithoutTrailing(items) == WithoutTrailing(rest);
      } else {
        assert WithoutTrailing(items) == [first] + WithoutTrailing(rest);
      }
    }
  }

  lemma TokensCons(item: Item, items: seq<Item>)
    requires !item.LineComment? && !item.BlockComment?
    ensures Tokens([item] + items) == if item.White? then Tokens(items) else [item] + Tokens(items)
    ensures !item.White? ==>
      NoTrailingCommas([item] + Tokens(items))
      == (if item.Comma? && Tokens(items) != [] && Tokens(items)[0].Closer? then [] else [item]) + NoTrailingCommas(Tokens(items))
  {
    assert ([item] + items)[1..] == items && ([item] + Tokens(items))[1..] == Tokens(items);
    assert [] + Tokens(items) == Tokens(items);
  }

  /**
   * The two passes give back, written out again, the same tokens without trailing commas: every string
   * literal character for character, and every comment at most a blank.
   */
  lemma PassesKeepTokens(d: Document)
    requires OkDocument(d)
    ensures var items := WithoutTrailing(Uncommented(d.items));
      && StripCommas(StripComments(RenderDocument(d))) == Render(items)
      && Tokens(items) == NoTrailingCommas(Tokens(d.items))
  {
    var last := if d.lastComment.None? then "" else "//" + d.lastComment.value;
    StripsComments(d.items, last);
    LastCommentGoes(d);
    UncommentedIsOk(d.items);
    StripsTrailingCommas(Uncommented(d.items));
    TokensWithoutTrailing(Uncommented(d.items));
    assert Render(Uncommented(d.items)) + "" == Render(Uncommented(d.items));
  }

  lemma LastCommentGoes(d: Document)
    requires OkDocument(d)
    ensures StripComments(if d.lastComment.None? then "" else "//" + d.lastComment.value) == ""
  {
    if d.lastComment.Some? {
      LineGoes("//" + d.lastComment.value);
    }
  }

  lemma LineGoes(last: string)
    requires |last| > 1 && last[0] == '/' && last[1] == '/' && '\n' !in last
    ensures StripComments(last) == ""
  {
    LineEndIs(last, "");
    assert last + "" == last;
    assert last[LineEnd(last)..] == "";
  }

  // ----- the loops

  /** What is copied so far, the run being copied, and what the pass makes of the rest, are what it makes of all. */
  ghost predicate Copied(strip: string -> string, source: string, out: string, runStart: nat, i: nat) {
    && runStart <= i <= |source| + 1 && runStart <= |source|
    && out + source[runStart..Min(i, |source|)] + strip(source[Min(i, |source|)..]) == strip(source)
  }

  lemma CopyMore(strip: string -> string, source: string, out: string, runStart: nat, i: nat, j: nat)
    requires Copied(strip, source, out, runStart, i) && i <= |source| && i <= j <= |source| + 1
    requires strip(source[i..]) == source[i..Min(j, |source|)] + strip(source[Min(j, |source|)..])
    ensures Copied(strip, source, out, runStart, j)
  {
    var k := Min(j, |source|);
    assert source[runStart..k] == source[runStart..i] + source[i..k];
    Associates(out + source[runStart..i], source[i..k], strip(source[k..]));
    Associates(out, source[runStart..i], source[i..k]);
  }

  /** From `i` to `j`, the pass leaves `instead`. */
  lemma CopySkips(strip: string -> string, source: string, out: string, runStart: nat, i: nat, j: nat, instead: string)
    requires Copied(strip, source, out, runStart, i) && i <= j <= |source|
    requires strip(source[i..]) == instead + strip(source[j..])
    ensures Copied(strip, source, out + source[runStart..i] + instead, j, j)
  {
    Associates(out + source[runStart..i], instead, strip(source[j..]));
    assert source[j..j] == "";
  }

  lemma CopiedAll(strip: string -> string, source: string, out: string, runStart: nat, i: nat)
    requires Copied(strip, source, out, runStart, i) && i >= |source| && strip("") == ""
    ensures out + source[runStart..] == strip(source)
  {
    assert source[|source|..] == "";
    assert source[runStart..|source|] == source[runStart..];
    assert out + source[runStart..] + "" == out + source[runStart..];
  }

  method SkipString(source: string, start: nat) returns (i: nat)
    requires start < |source| && source[start] == '"'
    ensures i == start + 1 + LiteralRest(source[start + 1..])
  {
    i := start + 1;
    while i < |source|
      invariant start < i <= |source| + 1
      invariant start + 1 + LiteralRest(source[start + 1..]) == i + if i <= |source| then LiteralRest(source[i..]) else 0
    {
      var ch := source[i];
      assert source[i..][1..] == source[i + 1..];
      if ch == '\\' {
        assert i + 2 <= |source| ==> source[i..][2..] == source[i + 2..];
        i := i + 2;
        continue;
      }
      i := i + 1;
      if ch == '"' {
        return;
      }
    }
  }

  lemma SkippedLiteral(source: string, start: nat, i: nat)
    requires start < |source| && source[start] == '"' && i == start + 1 + LiteralRest(source[start + 1..])
    ensures Min(i, |source|) == start + Literal(source[start..])
    ensures source[start..][..Literal(source[start..])] == source[start..Min(i, |source|)]
    ensures source[start..][Literal(source[start..])..] == source[Min(i, |source|)..]
  {
    assert source[start..][1..] == source[start + 1..];
  }

  function Comments(): string -> string {
    s => StripComments(s)
  }

  method WithoutComments(source: string) returns (result: string)
    ensures result == StripComments(source)
  {
    var out, runStart: nat, i: nat := "", 0, 0;
    NothingCopied(Comments(), source);
    while i < |source|
      invariant Copied(Comments(), source, out, runStart, i)
    {
      var ch := source[i];
      if ch == '"' {
        ghost var from := i;
        i := SkipString(source, i);
        CommentsCopyString(source, out, runStart, from, i);
      } else if ch == '/' && i + 1 < |source| && source[i + 1] == '/' {
        var end := FindLineEnd(source, i);
        StripsLine(source, out, runStart, i, end);
        out := out + source[runStart..i];
        i, runStart := end, end;
      } else if ch == '/' && i + 1 < |source| && source[i + 1] == '*' {
        var end := FindBlockEnd(source, i + 2);
        StripsBlock(source, out, runStart, i, end);
        out := out + source[runStart..i] + " ";
        i, runStart := end, end;
      } else {
        CommentsCopyChar(source, out, runStart, i);
        i := i + 1;
      }
    }
    CopiedAll(Comments(), source, out, runStart, i);
    result := out + source[runStart..];
  }

  lemma NothingCopied(strip: string -> string, source: string)
    ensures Copied(strip, source, "", 0, 0)
  {
    assert source[0..] == source && "" + source[0..0] + strip(source) == strip(source);
  }

  lemma CommentsCopyString(source: string, out: string, runStart: nat, from: nat, i: nat)
    requires Copied(Comments(), source, out, runStart, from) && from < |source| && source[from] == '"'
    requires i == from + 1 + LiteralRest(source[from + 1..])
    ensures Copied(Comments(), source, out, runStart, i)
  {
    SkippedLiteral(source, from, i);
    CopyMore(Comments(), source, out, runStart, from, i);
  }

  lemma CommentsCopyChar(source: string, out: string, runStart: nat, i: nat)
    requires Copied(Comments(), source, out, runStart, i) && i < |source| && source[i] != '"'
    requires source[i] == '/' && i + 1 < |source| ==> source[i + 1] != '/' && source[i + 1] != '*'
    ensures Copied(Comments(), source, out, runStart, i + 1)
  {
    var rest := source[i..];
    StripOther(rest);
    assert rest[1..] == source[i + 1..] && source[i..i + 1] == [source[i]];
    CopyMore(Comments(), source, out, runStart, i, i + 1);
  }

  lemma StripsLine(source: string, out: string, runStart: nat, i: nat, end: nat)
    requires Copied(Comments(), source, out, runStart, i)
    requires i + 1 < |source| && source[i] == '/' && source[i + 1] == '/' && end == i + LineEnd(source[i..])
    ensures Copied(Comments(), source, out + source[runStart..i], end, end)
  {
    assert source[i..][LineEnd(source[i..])..] == source[end..];
    assert "" + StripComments(source[end..]) == StripComments(source[end..]);
    CopySkips(Comments(), source, out, runStart, i, end, "");
    assert out + source[runStart..i] + "" == out + source[runStart..i];
  }

  lemma StripsBlock(source: string, out: string, runStart: nat, i: nat, end: nat)
    requires Copied(Comments(), source, out, runStart, i)
    requires i + 1 < |source| && source[i] == '/' && source[i + 1] == '*' && end == i + 2 + BlockEnd(source[i + 2..])
    ensures Copied(Comments(), source, out + source[runStart..i] + " ", end, end)
  {
    assert source[i..][2..] == source[i + 2..];
    assert source[i..][2 + BlockEnd(source[i + 2..])..] == source[end..];
    CopySkips(Comments(), source, out, runStart, i, end, " ");
  }

  method FindLineEnd(source: string, start: nat) returns (i: nat)
    requires start <= |source|
    ensures i == start + LineEnd(source[start..])
  {
    i := start;
    while i < |source| && source[i] != '\n'
      invariant start <= i <= |source| && start + LineEnd(source[start..]) == i + LineEnd(source[i..])
    {
      assert source[i..][1..] == source[i + 1..];
      i := i + 1;
    }
  }

  /** `indexOf("*\/", start)`, past it or the end. */
  method FindBlockEnd(source: string, start: nat) returns (i: nat)
    requires start <= |source|
    ensures i == start + BlockEnd(source[start..])
  {
    i := start;
    while i + 1 < |source| && !(source[i] == '*' && source[i + 1] == '/')
      invariant start <= i <= |source| && start + BlockEnd(source[start..]) == i + BlockEnd(source[i..])
    {
      assert source[i..][1..] == source[i + 1..];
      i := i + 1;
    }
    i := if i + 1 < |source| then i + 2 else |source|;
  }

  function Commas(): string -> string {
    s => StripCommas(s)
  }

  method WithoutTrailingCommas(source: string) returns (result: string)
    ensures result == StripCommas(source)
  {
    var out, runStart: nat, i: nat := "", 0, 0;
    NothingCopied(Commas(), source);
    while i < |source|
      invariant Copied(Commas(), source, out, runStart, i)
    {
      var ch := source[i];
      if ch == '"' {
        ghost var from := i;
        i := SkipString(source, i);
        CommasCopyString(source, out, runStart, from, i);
        continue;
      }
      if ch == ',' {
        var closes := FindCloser(source, i + 1);
        if closes {
          StripsComma(source, out, runStart, i);
          out := out + source[runStart..i];
          i, runStart := i + 1, i + 1;
          continue;
        }
      }
      CommasCopyChar(source, out, runStart, i);
      i := i + 1;
    }
    CopiedAll(Commas(), source, out, runStart, i);
    result := out + source[runStart..];
  }

  lemma CommasCopyString(source: string, out: string, runStart: nat, from: nat, i: nat)
    requires Copied(Commas(), source, out, runStart, from) && from < |source| && source[from] == '"'
    requires i == from + 1 + LiteralRest(source[from + 1..])
    ensures Copied(Commas(), source, out, runStart, i)
  {
    SkippedLiteral(source, from, i);
    CopyMore(Commas(), source, out, runStart, from, i);
  }

  lemma StripsComma(source: string, out: string, runStart: nat, i: nat)
    requires Copied(Commas(), source, out, runStart, i) && i < |source| && source[i] == ',' && ClosesNext(source[i + 1..])
    ensures Copied(Commas(), source, out + source[runStart..i], i + 1, i + 1)
  {
    assert source[i..][1..] == source[i + 1..];
    assert "" + StripCommas(source[i + 1..]) == StripCommas(source[i + 1..]);
    CopySkips(Commas(), source, out, runStart, i, i + 1, "");
    assert out + source[runStart..i] + "" == out + source[runStart..i];
  }

  lemma CommasCopyChar(source: string, out: string, runStart: nat, i: nat)
    requires Copied(Commas(), source, out, runStart, i) && i < |source| && source[i] != '"'
    requires source[i] == ',' ==> !ClosesNext(source[i + 1..])
    ensures Copied(Commas(), source, out, runStart, i + 1)
  {
    assert source[i..][1..] == source[i + 1..] && source[i..i + 1] == [source[i]];
    CopyMore(Commas(), source, out, runStart, i, i + 1);
  }

  method FindCloser(source: string, start: nat) returns (closes: bool)
    requires start <= |source|
    ensures closes <==> ClosesNext(source[start..])
  {
    var j := start;
    while j < |source| && IsSpace(source[j])
      invariant start <= j <= |source| && (ClosesNext(source[start..]) <==> ClosesNext(source[j..]))
    {
      assert source[j..][1..] == source[j + 1..];
      j := j + 1;
    }
    return j < |source| && IsCloser(source[j]);
  }

  /** `parseJsonc` up to the JSON parser: a leading byte-order mark goes, then the two passes. */
  method StripJsonc(source: string) returns (plain: string)
    ensures var text := if source != "" && source[0] as int == 65279 then source[1..] else source;
      && plain == StripCommas(StripComments(text))
      && forall d: Document :: OkDocument(d) && text == RenderDocument(d) ==>
        && plain == Render(WithoutTrailing(Uncommented(d.items)))
        && Tokens(WithoutTrailing(Uncommented(d.items))) == NoTrailingCommas(Tokens(d.items))
  {
    var text := if source != "" && source[0] as int == 65279 then source[1..] else source;
    var uncommented := WithoutComments(text);
    plain := WithoutTrailingCommas(uncommented);
    forall d: Document | OkDocument(d) && text == RenderDocument(d)
      ensures plain == Render(WithoutTrailing(Uncommented(d.items)))
      ensures Tokens(WithoutTrailing(Uncommented(d.items))) == NoTrailingCommas(Tokens(d.items))
    {
      PassesKeepTokens(d);
    }
  }
}
