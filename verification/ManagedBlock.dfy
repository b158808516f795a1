/**
 * The managed block of an instructions file: finding it between its two marks, writing or replacing it,
 * and taking it out again. What a rewrite keeps of the user's text, and how soon rewriting settles.
 */
module ManagedBlock {
  import opened Strings
  import opened Wrappers

  // ----- searching

  predicate OccursAt(text: string, m: string, i: nat) {
    i + |m| <= |text| && text[i..i + |m|] == m
  }

  ghost predicate Free(text: string, m: string) {
    forall i: nat :: !OccursAt(text, m, i)
  }

  /** `indexOf(m, from)` */
  function Find(text: string, m: string, from: nat): (at: Option<nat>)
    ensures at.Some? ==> at.value >= from && OccursAt(text, m, at.value) && forall i: nat :: from <= i < at.value ==> !OccursAt(text, m, i)
    ensures at.None? ==> forall i: nat :: from <= i ==> !OccursAt(text, m, i)
    decreases |text| - from
  {
    if from + |m| > |text| then None
    else if OccursAt(text, m, from) then Some(from)
    else if from == |text| then None
    else Find(text, m, from + 1)
  }

  /** How often `m` occurs from `from` on. The marks cannot overlap themselves. */
  function Count(text: string, m: string, from: nat): nat
    decreases |text| - from
  {
    if from >= |text| then 0 else (if OccursAt(text, m, from) then 1 else 0) + Count(text, m, from + 1)
  }

  /** Begins with '<' and ends with '>', and has neither elsewhere; one line. */
  predicate IsMark(m: string) {
    && |m| >= 2 && m[0] == '<' && m[|m| - 1] == '>' && '\n' !in m && '\r' !in m
    && (forall i :: 0 < i < |m| ==> m[i] != '<') && forall i :: 0 <= i < |m| - 1 ==> m[i] != '>'
  }

  // ----- line ends and blanks

  const BOM := '\U{FEFF}'

  function WithoutBom(text: string): string {
    if text != "" && text[0] == BOM then text[1..] else text
  }

  function ToLf(text: string): string
    decreases |text|
  {
    if text == "" then ""
    else if |text| > 1 && text[0] == '\r' && text[1] == '\n' then "\n" + ToLf(text[2..])
    else [text[0]] + ToLf(text[1..])
  }

  function Normalise(text: string): string {
    ToLf(WithoutBom(text))
  }

  /** No carriage return before a line feed, and no byte-order mark in front. */
  predicate Unix(text: string) {
    (text != "" ==> text[0] != BOM) && NoCrLf(text)
  }

  predicate NoCrLf(text: string) {
    forall i :: 0 <= i < |text| - 1 ==> !(text[i] == '\r' && text[i + 1] == '\n')
  }

  function TrimEnd(text: string): (trimmed: string)
    ensures trimmed <= text && (trimmed != "" ==> !IsSpace(trimmed[|trimmed| - 1]))
  {
    if text != "" && IsSpace(text[|text| - 1]) then TrimEnd(text[..|text| - 1]) else text
  }

  function TrimStart(text: string): string {
    if text != "" && IsSpace(text[0]) then TrimStart(text[1..]) else text
  }

  predicate IsBlank(text: string) {
    TrimEnd(text) == ""
  }

  function EnsureNewline(text: string): string {
    if text != "" && text[|text| - 1] == '\n' then text else text + "\n"
  }

  // ----- rewriting

  datatype Range = Range(start: nat, end: nat)

  datatype Mode = AutoRewrite | DiffWarn | FailBuild

  datatype Action = NoOp | AppendBlock | ReplaceBlock | LeaveManual | Fail

  datatype Result = Result(text: string, action: Action, manualEdit: bool)

  /** The two marks, and the tests on text this model does not look into: a block's version and hash lines, hand-written guidance, a frontmatter of ours, a block of other settings. */
  datatype Tools = Tools(
    start: string,
    end: string,
    version: string -> Option<string>,
    sha: string -> Option<string>,
    manual: string -> bool,
    ours: string -> bool,
    alternate: string -> bool)

  ghost predicate SoundTools(w: Tools) {
    IsMark(w.start) && IsMark(w.end) && w.start != w.end
  }

  function ManagedRange(w: Tools, text: string): (range: Option<Range>)
    ensures range.Some? ==> range.value.start + |w.start| + |w.end| <= range.value.end <= |text|
    ensures range.Some? ==> OccursAt(text, w.start, range.value.start)
  {
    var start := Find(text, w.start, 0);
    if start.None? then None
    else
      var end := Find(text, w.end, start.value + |w.start|);
      if end.None? then None else Some(Range(start.value, end.value + |w.end|))
  }

  predicate Malformed(w: Tools, text: string) {
    Count(text, w.start, 0) != Count(text, w.end, 0) || Count(text, w.start, 0) > 1
  }

  const YAML_OPEN := "---\n"
  const YAML_CLOSE := "\n---\n"

  predicate IsYaml(text: string) {
    YAML_OPEN <= text
  }

  function PrefixOf(w: Tools, canonical: string): string {
    var at := Find(canonical, w.start, 0);
    if at.Some? then canonical[..at.value] else ""
  }

  function BlockOf(w: Tools, canonical: string): string {
    var at := Find(canonical, w.start, 0);
    if at.Some? then canonical[at.value..] else canonical
  }

  /** A text that ends a line with the canonical block, or with it after its own frontmatter. */
  function Appended(w: Tools, u: string, canonical: string): string {
    var prefix, block := PrefixOf(w, canonical), BlockOf(w, canonical);
    if IsYaml(prefix) && !IsBlank(u) then
      EnsureNewline((if IsYaml(u) then TrimEnd(u) else prefix + TrimEnd(u)) + "\n\n" + block)
    else EnsureNewline((if IsBlank(u) then "" else TrimEnd(u) + "\n\n") + canonical)
  }

  /** What is before the block in the file, as far as frontmatter goes. */
  datatype Front = Front(exact: bool, compatible: bool, outdated: bool)

  function FrontOf(w: Tools, u: string, at: nat, prefix: string): Front
    requires at <= |u|
  {
    var exact := |prefix| <= at && u[at - |prefix|..at] == prefix;
    var close := if IsYaml(prefix) && IsYaml(u) then Find(u, YAML_CLOSE, 4) else None;
    var compatible := close.Some? && close.value + 5 <= at;
    var only := compatible && IsBlank(u[close.value + 5..at]);
    Front(exact, compatible, only && !exact && w.ours(u[..at]))
  }

  function FrontMatches(f: Front): bool {
    f.exact || (f.compatible && !f.outdated)
  }

  function Replaced(w: Tools, u: string, range: Range, canonical: string): string
    requires range.start <= range.end <= |u|
  {
    var prefix, block := PrefixOf(w, canonical), BlockOf(w, canonical);
    var f := FrontOf(w, u, range.start, prefix);
    var from := if f.exact then range.start - |prefix| else if f.outdated then 0 else range.start;
    var replacement := if f.compatible && !f.exact && !f.outdated then block else canonical;
    var rest := u[range.end..];
    var suffix := if replacement != "" && replacement[|replacement| - 1] == '\n' && rest != "" && rest[0] == '\n' then rest[1..] else rest;
    EnsureNewline(u[..from] + replacement + suffix)
  }

  function Rewrite(w: Tools, text: string, canonical: string, version: string, sha: string, mode: Mode): Result {
    var u := Normalise(text);
    var range := ManagedRange(w, u);
    if Malformed(w, ToLf(text)) || Malformed(w, u) then Result(text, Fail, false)
    else if range.None? then
      if w.manual(u) then Result(u, LeaveManual, false) else Result(Appended(w, u, canonical), AppendBlock, false)
    else if w.version(u[range.value.start..range.value.end]).None? then Result(text, Fail, false)
    else RewriteBlock(w, u, range.value, canonical, version, sha, mode)
  }

  /** A block of some version. */
  function RewriteBlock(w: Tools, u: string, range: Range, canonical: string, version: string, sha: string, mode: Mode): Result
    requires range.start <= range.end <= |u|
  {
    var block := u[range.start..range.end];
    var versionMatch, shaMatch := w.version(block) == Some(version), w.sha(block) == Some(sha);
    var f := FrontOf(w, u, range.start, PrefixOf(w, canonical));
    var edited := w.sha(block).Some? && !shaMatch && versionMatch && !w.alternate(block);
    if versionMatch && shaMatch && FrontMatches(f) then Result(EnsureNewline(u), NoOp, false)
    else
      match mode
      case FailBuild => Result(u, Fail, edited)
      case DiffWarn => Result(u, NoOp, edited)
      case AutoRewrite => Result(Replaced(w, u, range, canonical), ReplaceBlock, edited)
  }

  /** What removal makes of the text before and the text after the block. */
  function Rejoined(before: string, after: string): string {
    var next := if before != "" && after != "" then before + "\n\n" + after else before + after;
    if next == "" then "" else TrimEnd(next) + "\n"
  }

  function RemoveBlock(w: Tools, text: string): (string, bool) {
    var u := ToLf(text);
    var range := ManagedRange(w, u);
    if range.None? then (u, false)
    else
      var before, after := TrimEnd(u[..range.value.start]), TrimStart(u[range.value.end..]);
      (Rejoined(before, after), true)
  }

  // ----- where a mark can occur

  /** No mark can lie across the seam of `a` and `b`. */
  predicate Seam(a: string, b: string) {
    || a == "" || b == ""
    || a[|a| - 1] == '\n' || a[|a| - 1] == '>'
    || b[0] == '\n' || b[0] == '<' || (|b| >= 4 && b[0] == '-' && b[1] == '-' && b[2] == '-' && b[3] == '\n')
  }

  lemma Spelled(text: string, m: string, i: nat)
    ensures OccursAt(text, m, i) ==> forall j :: 0 <= j < |m| ==> text[i + j] == m[j]
  {
    forall j | 0 <= j < |m| && OccursAt(text, m, i)
      ensures text[i + j] == m[j]
    {
      assert text[i..i + |m|][j] == m[j];
    }
  }

  lemma NotAcross(a: string, b: string, m: string, i: nat)
    requires IsMark(m) && Seam(a, b) && i < |a| < i + |m|
    ensures !OccursAt(a + b, m, i)
  {
    var text, k := a + b, |a| - i;
    Spelled(text, m, i);
    assert text[i + (k - 1)] == a[|a| - 1];
    assert forall j :: 0 <= j < |b| ==> text[i + (k + j)] == b[j];
    assert m[|m| - 1] == '>';
  }

  lemma OccursInFirst(a: string, b: string, m: string, i: nat)
    requires i + |m| <= |a|
    ensures OccursAt(a + b, m, i) <==> OccursAt(a, m, i)
  {
    assert (a + b)[i..i + |m|] == a[i..i + |m|];
  }

  lemma OccursInSecond(a: string, b: string, m: string, i: nat)
    requires i >= |a|
    ensures OccursAt(a + b, m, i) <==> OccursAt(b, m, i - |a|)
  {
    if i + |m| <= |a + b| {
      assert (a + b)[i..i + |m|] == b[i - |a|..i - |a| + |m|];
    }
  }

  lemma OccursInParts(a: string, b: string, m: string, i: nat)
    requires IsMark(m) && Seam(a, b)
    ensures OccursAt(a + b, m, i) <==> OccursAt(a, m, i) || (i >= |a| && OccursAt(b, m, i - |a|))
  {
    if i + |m| <= |a| {
      OccursInFirst(a, b, m, i);
    } else if i >= |a| {
      OccursInSecond(a, b, m, i);
    } else {
      NotAcross(a, b, m, i);
    }
  }

  lemma FreeParts(a: string, b: string, m: string)
    requires IsMark(m) && Seam(a, b)
    ensures Free(a + b, m) <==> Free(a, m) && Free(b, m)
  {
    forall i: nat
      ensures OccursAt(a + b, m, i) <==> OccursAt(a, m, i) || (i >= |a| && OccursAt(b, m, i - |a|))
    {
      OccursInParts(a, b, m, i);
    }
    assert forall i: nat :: OccursAt(b, m, i) ==> OccursAt(a + b, m, |a| + i);
  }

  lemma MarksApart(m: string, m': string)
    requires IsMark(m) && IsMark(m') && m != m'
    ensures Free(m, m')
  {
    forall i: nat
      ensures !OccursAt(m, m', i)
    {
      Spelled(m, m', i);
      assert m'[0] == '<' && m'[|m'| - 1] == '>';
      assert m[0..|m|] == m;
    }
  }

  /** A mark between texts free of it occurs there only. */
  lemma OnlyThere(x: string, m: string, y: string)
    requires IsMark(m) && Free(x, m) && Free(y, m)
    ensures forall i: nat :: OccursAt(x + m + y, m, i) <==> i == |x|
  {
    forall i: nat
      ensures OccursAt(x + m + y, m, i) <==> i == |x|
    {
      OccursInParts(x + m, y, m, i);
      OccursInParts(x, m, m, i);
      assert OccursAt(m, m, 0);
      if i > |x| && OccursAt(m, m, i - |x|) {
        assert false;
      }
    }
  }

  lemma {:induction false} CountNone(text: string, m: string, from: nat)
    requires forall i: nat :: from <= i ==> !OccursAt(text, m, i)
    ensures Count(text, m, from) == 0
    decreases |text| - from
  {
    if from < |text| {
      CountNone(text, m, from + 1);
    }
  }

  lemma {:induction false} CountOne(text: string, m: string, at: nat, from: nat)
    requires from <= at < |text| && forall i: nat :: OccursAt(text, m, i) <==> i == at
    ensures Count(text, m, from) == 1
    decreases |text| - from
  {
    if from == at {
      CountNone(text, m, from + 1);
    } else {
      CountOne(text, m, at, from + 1);
    }
  }

  /** Free of both marks. */
  ghost predicate Plain(w: Tools, text: string) {
    Free(text, w.start) && Free(text, w.end)
  }

  function Marked(w: Tools, mid: string): string {
    w.start + mid + w.end
  }

  lemma PlainParts(w: Tools, a: string, b: string)
    requires SoundTools(w) && Seam(a, b)
    ensures Plain(w, a + b) <==> Plain(w, a) && Plain(w, b)
  {
    FreeParts(a, b, w.start);
    FreeParts(a, b, w.end);
  }

  lemma OnlyStart(w: Tools, a: string, mid: string, z: string)
    requires SoundTools(w) && Plain(w, a) && Plain(w, mid) && Plain(w, z)
    ensures forall i: nat :: OccursAt(a + Marked(w, mid) + z, w.start, i) <==> i == |a|
  {
    var rest := mid + w.end + z;
    MarksApart(w.end, w.start);
    FreeParts(mid, w.end, w.start);
    FreeParts(mid + w.end, z, w.start);
    OnlyThere(a, w.start, rest);
    assert a + Marked(w, mid) + z == a + w.start + rest;
  }

  lemma OnlyEnd(w: Tools, a: string, mid: string, z: string)
    requires SoundTools(w) && Plain(w, a) && Plain(w, mid) && Plain(w, z)
    ensures forall i: nat :: OccursAt(a + Marked(w, mid) + z, w.end, i) <==> i == |a + w.start + mid|
  {
    var before := a + w.start + mid;
    MarksApart(w.start, w.end);
    FreeParts(a, w.start, w.end);
    FreeParts(a + w.start, mid, w.end);
    OnlyThere(before, w.end, z);
    assert a + Marked(w, mid) + z == before + w.end + z;
  }

  lemma FindIs(text: string, m: string, at: nat, from: nat)
    requires from <= at && forall i: nat :: OccursAt(text, m, i) <==> i == at
    ensures Find(text, m, from) == Some(at)
  {
    assert OccursAt(text, m, at);
  }

  /** One marked block in plain text is well formed, and found. */
  lemma OneBlock(w: Tools, a: string, mid: string, z: string)
    requires SoundTools(w) && Plain(w, a) && Plain(w, mid) && Plain(w, z)
    ensures var text, block := a + Marked(w, mid) + z, Marked(w, mid);
      && !Malformed(w, text)
      && ManagedRange(w, text) == Some(Range(|a|, |a| + |block|))
      && text[|a|..|a| + |block|] == block
  {
    OnlyStart(w, a, mid, z);
    OnlyEnd(w, a, mid, z);
    RangeIs(w, a + Marked(w, mid) + z, |a|, |a + w.start + mid|);
  }

  lemma RangeIs(w: Tools, text: string, start: nat, end: nat)
    requires SoundTools(w) && start + |w.start| <= end
    requires forall i: nat :: OccursAt(text, w.start, i) <==> i == start
    requires forall i: nat :: OccursAt(text, w.end, i) <==> i == end
    ensures !Malformed(w, text) && ManagedRange(w, text) == Some(Range(start, end + |w.end|))
  {
    assert OccursAt(text, w.start, start) && OccursAt(text, w.end, end);
    CountOne(text, w.start, start, 0);
    CountOne(text, w.end, end, 0);
    FindIs(text, w.start, start, 0);
    FindIs(text, w.end, end, start + |w.start|);
  }

  lemma NoBlock(w: Tools, u: string)
    requires Plain(w, u)
    ensures !Malformed(w, u) && ManagedRange(w, u) == None
  {
    CountNone(u, w.start, 0);
    CountNone(u, w.end, 0);
  }

  // ----- every way the marks can stand

  lemma {:induction false} CountZero(text: string, m: string, from: nat)
    requires m != "" && Count(text, m, from) == 0
    ensures forall i: nat :: from <= i ==> !OccursAt(text, m, i)
    decreases |text| - from
  {
    if from < |text| {
      CountZero(text, m, from + 1);
    }
  }

  lemma {:induction false} CountOneAt(text: string, m: string, from: nat) returns (at: nat)
    requires m != "" && Count(text, m, from) == 1
    ensures from <= at && forall i: nat :: from <= i ==> (OccursAt(text, m, i) <==> i == at)
    decreases |text| - from
  {
    if OccursAt(text, m, from) {
      CountZero(text, m, from + 1);
      at := from;
    } else {
      at := CountOneAt(text, m, from + 1);
    }
  }

  lemma {:induction false} CountTwo(text: string, m: string, i: nat, j: nat, from: nat)
    requires m != "" && from <= i < j && OccursAt(text, m, i) && OccursAt(text, m, j)
    ensures Count(text, m, from) >= 2
    decreases |text| - from
  {
    if from == i {
      CountSome(text, m, j, from + 1);
    } else {
      CountTwo(text, m, i, j, from + 1);
    }
  }

  lemma {:induction false} CountSome(text: string, m: string, j: nat, from: nat)
    requires m != "" && from <= j && OccursAt(text, m, j)
    ensures Count(text, m, from) >= 1
    decreases |text| - from
  {
    if from < j {
      CountSome(text, m, j, from + 1);
    }
  }

  lemma EndsTogether(text: string, m: string, m': string, i: nat)
    requires IsMark(m) && IsMark(m') && OccursAt(text, m, i) && OccursAt(text, m', i)
    ensures |m| <= |m'| ==> |m| == |m'|
  {
    Spelled(text, m, i);
    Spelled(text, m', i);
    assert |m| <= |m'| ==> m'[|m| - 1] == text[i + (|m| - 1)] == m[|m| - 1] == '>';
  }

  /** Marks that share a character are the same mark. */
  lemma SharingIsSame(text: string, m: string, m': string, i: nat, j: nat)
    requires IsMark(m) && IsMark(m') && OccursAt(text, m, i) && OccursAt(text, m', j) && i <= j < i + |m|
    ensures i == j && m == m'
  {
    Spelled(text, m, i);
    Spelled(text, m', j);
    assert m[j - i] == text[i + (j - i)] && m'[0] == text[j + 0] == '<';
    assert i == j;
    EndsTogether(text, m, m', i);
    EndsTogether(text, m', m, i);
    assert m == text[i..i + |m|] == m';
  }

  lemma FreeBeside(text: string, m: string, at: nat, lo: nat, hi: nat)
    requires lo <= hi <= |text| && (hi < at + |m| || at < lo)
    requires forall i: nat :: OccursAt(text, m, i) <==> i == at
    ensures Free(text[lo..hi], m)
  {
    forall i: nat
      ensures !OccursAt(text[lo..hi], m, i)
    {
      if i + |m| <= hi - lo {
        SliceOfSlice(text, lo, hi, i, i + |m|);
        assert OccursAt(text, m, lo + i) <==> lo + i == at;
      }
    }
  }

  lemma CutAtMarks(text: string, m: string, m': string, i: nat, j: nat)
    requires OccursAt(text, m, i) && OccursAt(text, m', j) && i + |m| <= j
    ensures text == text[0..i] + (m + text[i + |m|..j] + m') + text[j + |m'|..|text|]
  {
    assert text[i..i + |m|] == m && text[j..j + |m'|] == m';
  }

  /** One start and one end mark, in this order or, with the marks swapped, in the other. */
  lemma OnePair(w: Tools, u: string, i: nat, j: nat)
    requires SoundTools(w) && i < j
    requires forall k: nat :: OccursAt(u, w.start, k) <==> k == i
    requires forall k: nat :: OccursAt(u, w.end, k) <==> k == j
    ensures i + |w.start| <= j && j + |w.end| <= |u|
    ensures var a, mid, z := u[0..i], u[i + |w.start|..j], u[j + |w.end|..|u|];
      u == a + Marked(w, mid) + z && Plain(w, a) && Plain(w, mid) && Plain(w, z)
  {
    assert OccursAt(u, w.start, i) && OccursAt(u, w.end, j);
    if j < i + |w.start| {
      SharingIsSame(u, w.start, w.end, i, j);
    }
    CutAtMarks(u, w.start, w.end, i, j);
    PlainBeside(w, u, i, j, 0, i);
    PlainBeside(w, u, i, j, i + |w.start|, j);
    PlainBeside(w, u, i, j, j + |w.end|, |u|);
  }

  lemma PlainBeside(w: Tools, u: string, i: nat, j: nat, lo: nat, hi: nat)
    requires lo <= hi <= |u| && (hi < i + |w.start| || i < lo) && (hi < j + |w.end| || j < lo)
    requires forall k: nat :: OccursAt(u, w.start, k) <==> k == i
    requires forall k: nat :: OccursAt(u, w.end, k) <==> k == j
    ensures Plain(w, u[lo..hi])
  {
    FreeBeside(u, w.start, i, lo, hi);
    FreeBeside(u, w.end, j, lo, hi);
  }

  lemma EitherPair(w: Tools, u: string, i: nat, j: nat) returns (sight: Sight)
    requires SoundTools(w)
    requires forall k: nat :: OccursAt(u, w.start, k) <==> k == i
    requires forall k: nat :: OccursAt(u, w.end, k) <==> k == j
    ensures Shows(w, u, sight)
  {
    if i < j {
      OnePair(w, u, i, j);
      sight := Block(u[0..i], u[i + |w.start|..j], u[j + |w.end|..|u|]);
    } else {
      assert OccursAt(u, w.start, i) && OccursAt(u, w.end, j);
      if i == j {
        SharingIsSame(u, w.start, w.end, i, j);
      }
      OnePair(Swapped(w), u, j, i);
      sight := Crossed(u[0..j], u[j + |w.end|..i], u[i + |w.start|..|u|]);
    }
  }

  /** A text that is not malformed shows no marks, an ordered pair, or a crossed one. */
  lemma EverySight(w: Tools, u: string) returns (sight: Sight)
    requires SoundTools(w) && !Malformed(w, u)
    ensures Shows(w, u, sight)
  {
    if Count(u, w.start, 0) == 0 {
      CountZero(u, w.start, 0);
      CountZero(u, w.end, 0);
      sight := Nothing;
    } else {
      var i := CountOneAt(u, w.start, 0);
      var j := CountOneAt(u, w.end, 0);
      sight := EitherPair(w, u, i, j);
    }
  }

  /** One start mark behind one end mark is not refused, and is not a block. */
  lemma CrossedIsNoBlock(w: Tools, u: string, a: string, mid: string, z: string)
    requires SoundTools(w) && Shows(w, u, Crossed(a, mid, z))
    ensures !Malformed(w, u) && ManagedRange(w, u) == None && Count(u, w.start, 0) == 1
  {
    var v := Swapped(w);
    OnlyStart(v, a, mid, z);
    OnlyEnd(v, a, mid, z);
    var end, start := |a|, |a + v.start + mid|;
    assert OccursAt(u, w.start, start) && OccursAt(u, w.end, end);
    CountOne(u, w.start, start, 0);
    CountOne(u, w.end, end, 0);
    FindIs(u, w.start, start, 0);
  }

  // ----- the canonical text

  /** What the generator renders: frontmatter or nothing, the block, and a line break. */
  datatype Guide = Guide(prefix: string, mid: string, version: string, sha: string)

  function BlockText(w: Tools, g: Guide): string {
    Marked(w, g.mid)
  }

  function Canonical(w: Tools, g: Guide): string {
    g.prefix + (BlockText(w, g) + "\n")
  }

  /** Frontmatter: an opening line of dashes, a closing one, a blank line. */
  ghost predicate IsFrontmatter(prefix: string) {
    exists body: string :: prefix == YAML_OPEN + body + (YAML_CLOSE + "\n")
  }

  ghost predicate SoundGuide(w: Tools, g: Guide) {
    && (g.prefix == "" || IsFrontmatter(g.prefix))
    && Plain(w, g.prefix) && Plain(w, g.mid) && Unix(g.prefix) && NoCrLf(BlockText(w, g))
    && w.version(BlockText(w, g)) == Some(g.version) && w.sha(BlockText(w, g)) == Some(g.sha)
  }

  lemma NoAngleNoMark(s: string, m: string)
    requires IsMark(m) && '<' !in s
    ensures Free(s, m)
  {
    forall i: nat
      ensures !OccursAt(s, m, i)
    {
      Spelled(s, m, i);
      assert m[0] == '<';
    }
  }

  lemma NoAngleIsPlain(w: Tools, s: string)
    requires SoundTools(w) && '<' !in s
    ensures Plain(w, s)
  {
    NoAngleNoMark(s, w.start);
    NoAngleNoMark(s, w.end);
  }

  lemma CanonicalParts(w: Tools, g: Guide)
    requires SoundTools(w) && SoundGuide(w, g)
    ensures PrefixOf(w, Canonical(w, g)) == g.prefix && BlockOf(w, Canonical(w, g)) == BlockText(w, g) + "\n"
  {
    NoAngleIsPlain(w, "\n");
    OnlyStart(w, g.prefix, g.mid, "\n");
    var canonical := Canonical(w, g);
    assert canonical == g.prefix + Marked(w, g.mid) + "\n";
    FindIs(canonical, w.start, |g.prefix|, 0);
    assert canonical[..|g.prefix|] == g.prefix && canonical[|g.prefix|..] == BlockText(w, g) + "\n";
  }

  // ----- line ends

  lemma {:induction false} ToLfKeeps(text: string)
    requires NoCrLf(text)
    ensures ToLf(text) == text
    decreases |text|
  {
    if text != "" {
      assert |text| > 1 ==> !(text[0] == '\r' && text[1] == '\n');
      assert forall i :: 0 <= i < |text[1..]| ==> text[1..][i] == text[i + 1];
      assert NoCrLf(text[1..]);
      ToLfKeeps(text[1..]);
    }
  }

  lemma NormaliseKeeps(text: string)
    requires Unix(text)
    ensures Normalise(text) == text && ToLf(text) == text
  {
    ToLfKeeps(text);
  }

  lemma SliceOfSlice(text: string, lo: nat, hi: nat, i: nat, j: nat)
    requires lo <= hi <= |text| && i <= j <= hi - lo
    ensures text[lo..hi][i..j] == text[lo + i..lo + j]
  {
    var x, y := text[lo..hi][i..j], text[lo + i..lo + j];
    assert |x| == |y| && forall k :: 0 <= k < |x| ==> x[k] == y[k];
  }

  lemma FreeSlice(text: string, m: string, lo: nat, hi: nat)
    requires lo <= hi <= |text| && Free(text, m)
    ensures Free(text[lo..hi], m)
  {
    forall i: nat
      ensures !OccursAt(text[lo..hi], m, i)
    {
      assert !OccursAt(text, m, lo + i);
      if i + |m| <= hi - lo {
        SliceOfSlice(text, lo, hi, i, i + |m|);
      }
    }
  }

  lemma PlainSlice(w: Tools, text: string, lo: nat, hi: nat)
    requires lo <= hi <= |text| && Plain(w, text)
    ensures Plain(w, text[lo..hi])
  {
    FreeSlice(text, w.start, lo, hi);
    FreeSlice(text, w.end, lo, hi);
  }

  // ----- carriage returns and byte-order marks, one layer at a time

  function Max(a: int, b: int): int {
    if a > b then a else b
  }

  function Less(n: nat): nat {
    if n == 0 then 0 else n - 1
  }

  /** How many carriage returns lead to a line feed at the front of `text`, -1 if none is there. */
  function HeadRun(text: string): (n: int)
    ensures n >= -1
  {
    if text == "" then -1
    else if text[0] == '\n' then 0
    else if text[0] == '\r' then (var n := HeadRun(text[1..]); if n < 0 then -1 else n + 1)
    else -1
  }

  /** The longest run of carriage returns before a line feed. */
  function LongestRun(text: string): nat {
    if text == "" then 0 else Max(LongestRun(text[1..]), HeadRun(text))
  }

  /** The byte-order marks in front. */
  function Boms(text: string): nat {
    if text != "" && text[0] == BOM then 1 + Boms(text[1..]) else 0
  }

  /** How often normalising still changes `text`. */
  function Depth(text: string): nat {
    Max(LongestRun(text), Boms(text))
  }

  lemma ToLfStep(text: string)
    requires text != "" && !(|text| > 1 && text[0] == '\r' && text[1] == '\n')
    ensures ToLf(text) == [text[0]] + ToLf(text[1..])
  {
  }

  lemma {:induction false} HeadRunOfLf(text: string)
    ensures HeadRun(ToLf(text)) == if HeadRun(text) > 0 then HeadRun(text) - 1 else HeadRun(text)
    decreases |text|
  {
    if text != "" {
      if |text| > 1 && text[0] == '\r' && text[1] == '\n' {
        assert HeadRun(text[1..]) == 0;
        assert ToLf(text)[0] == '\n';
      } else {
        ToLfStep(text);
        HeadRunOfLf(text[1..]);
        assert ToLf(text)[1..] == ToLf(text[1..]);
      }
    }
  }

  lemma {:induction false} LongestRunOfLf(text: string)
    ensures LongestRun(ToLf(text)) == Less(LongestRun(text))
    decreases |text|
  {
    if text != "" {
      HeadRunOfLf(text);
      if |text| > 1 && text[0] == '\r' && text[1] == '\n' {
        LongestRunOfLf(text[2..]);
        assert ToLf(text)[1..] == ToLf(text[2..]) && text[1..][1..] == text[2..];
        assert HeadRun(text[1..]) == 0 && HeadRun(text) == 1;
      } else {
        ToLfStep(text);
        LongestRunOfLf(text[1..]);
        assert ToLf(text)[1..] == ToLf(text[1..]);
      }
    }
  }

  lemma {:induction false} BomsOfLf(text: string)
    ensures Boms(ToLf(text)) == Boms(text)
    decreases |text|
  {
    if text != "" && !(|text| > 1 && text[0] == '\r' && text[1] == '\n') {
      ToLfStep(text);
      BomsOfLf(text[1..]);
      assert ToLf(text)[1..] == ToLf(text[1..]);
    }
  }

  lemma NoCrLfStep(text: string)
    requires text != ""
    ensures NoCrLf(text) <==> NoCrLf(text[1..]) && !(|text| > 1 && text[0] == '\r' && text[1] == '\n')
  {
    forall i | 0 < i < |text| - 1
      ensures text[1..][i - 1] == text[i] && text[1..][i] == text[i + 1]
    {
    }
    if NoCrLf(text[1..]) {
      assert forall i :: 0 < i < |text| - 1 ==> !(text[1..][i - 1] == '\r' && text[1..][i] == '\n');
    }
  }

  lemma {:induction false} NoCrLfIff(text: string)
    ensures NoCrLf(text) <==> LongestRun(text) == 0
  {
    if text != "" {
      NoCrLfIff(text[1..]);
      NoCrLfStep(text);
      if |text| > 1 && text[0] == '\r' && text[1] == '\n' {
        assert HeadRun(text[1..]) == 0;
      } else if HeadRun(text) > 0 {
        assert HeadRun(text[1..]) > 0 && text[1..] != "";
      }
    }
  }

  /** Normalising takes off one layer; it changes nothing exactly when none is left. */
  lemma NormaliseTakesOne(text: string)
    ensures Depth(Normalise(text)) == Less(Depth(text))
    ensures Depth(text) == 0 <==> Unix(text)
    ensures Normalise(text) == text <==> Unix(text)
  {
    NoCrLfIff(text);
    var stripped := WithoutBom(text);
    LongestRunOfLf(stripped);
    BomsOfLf(stripped);
    if Unix(text) {
      ToLfKeeps(text);
    }
  }

  lemma {:induction false} HeadRunOfParts(x: string, y: string)
    requires x == "" || y == "" || x[|x| - 1] != '\r' || (y[0] != '\r' && y[0] != '\n')
    ensures x != "" ==> HeadRun(x + y) == HeadRun(x)
  {
    if x != "" {
      assert (x + y)[0] == x[0] && (x + y)[1..] == x[1..] + y;
      if x[0] == '\r' {
        HeadRunOfParts(x[1..], y);
        assert |x| == 1 ==> x[1..] + y == y;
      }
    }
  }

  lemma {:induction false} LongestRunOfParts(x: string, y: string)
    requires x == "" || y == "" || x[|x| - 1] != '\r' || (y[0] != '\r' && y[0] != '\n')
    ensures LongestRun(x + y) == Max(LongestRun(x), LongestRun(y))
  {
    if x == "" {
      assert x + y == y;
    } else {
      HeadRunOfParts(x, y);
      assert (x + y)[1..] == x[1..] + y;
      LongestRunOfParts(x[1..], y);
    }
  }

  lemma {:induction false} ToLfParts(x: string, y: string)
    requires x == "" || y == "" || x[|x| - 1] != '\r' || y[0] != '\n'
    ensures ToLf(x + y) == ToLf(x) + ToLf(y)
    decreases |x|
  {
    if x == "" {
      assert x + y == y;
    } else if |x| > 1 && x[0] == '\r' && x[1] == '\n' {
      assert (x + y)[2..] == x[2..] + y;
      ToLfParts(x[2..], y);
      assert "\n" + ToLf(x[2..]) + ToLf(y) == "\n" + (ToLf(x[2..]) + ToLf(y));
    } else {
      assert (x + y)[1..] == x[1..] + y;
      ToLfParts(x[1..], y);
      ToLfStep(x + y);
      assert [x[0]] + ToLf(x[1..]) + ToLf(y) == [x[0]] + (ToLf(x[1..]) + ToLf(y));
    }
  }

  lemma {:induction false} ToLfEnds(text: string)
    requires text != ""
    ensures ToLf(text) != "" && ToLf(text)[|ToLf(text)| - 1] == text[|text| - 1]
    decreases |text|
  {
    if |text| > 1 && text[0] == '\r' && text[1] == '\n' {
      if |text| > 2 {
        ToLfEnds(text[2..]);
      } else {
        assert text[2..] == "";
      }
    } else if |text| > 1 {
      ToLfEnds(text[1..]);
    } else {
      assert text[1..] == "";
    }
  }

  /** Up to the first line feed nothing has changed. */
  lemma {:induction false} ToLfFirstLine(text: string, n: nat)
    requires n <= |ToLf(text)| && '\n' !in ToLf(text)[..n]
    ensures n <= |text| && text[..n] == ToLf(text)[..n]
    decreases |text|
  {
    if n > 0 {
      assert ToLf(text)[..n][0] == ToLf(text)[0] != '\n';
      ToLfStep(text);
      var rest := ToLf(text[1..]);
      assert ToLf(text)[..n] == [text[0]] + rest[..n - 1];
      assert forall c :: c in rest[..n - 1] ==> c in ToLf(text)[..n];
      ToLfFirstLine(text[1..], n - 1);
      assert text[..n] == [text[0]] + text[1..][..n - 1];
    }
  }

  lemma NotInFront(text: string, m: string)
    requires '\n' !in m && !OccursAt(text, m, 0)
    ensures !OccursAt(ToLf(text), m, 0)
  {
    var lf := ToLf(text);
    if |m| <= |lf| && '\n' !in lf[..|m|] {
      ToLfFirstLine(text, |m|);
      assert text[0..|m|] == text[..|m|] && lf[0..|m|] == lf[..|m|];
    }
    assert |m| <= |lf| ==> lf[0..|m|] == lf[..|m|];
  }

  /** Normalising line ends makes no marks. */
  lemma {:induction false} ToLfIsFree(text: string, m: string)
    requires IsMark(m) && Free(text, m)
    ensures Free(ToLf(text), m)
    decreases |text|
  {
    if text != "" {
      var skip := if |text| > 1 && text[0] == '\r' && text[1] == '\n' then 2 else 1;
      FreeSlice(text, m, skip, |text|);
      assert text[skip..|text|] == text[skip..];
      ToLfIsFree(text[skip..], m);
      var lf, rest := ToLf(text), ToLf(text[skip..]);
      assert lf[1..] == rest && lf == [lf[0]] + rest;
      forall i: nat
        ensures !OccursAt(lf, m, i)
      {
        if i > 0 {
          OccursInSecond([lf[0]], rest, m, i);
        } else {
          NotInFront(text, m);
        }
      }
    }
  }

  lemma ToLfIsPlain(w: Tools, text: string)
    requires SoundTools(w) && Plain(w, text)
    ensures Plain(w, ToLf(text))
  {
    ToLfIsFree(text, w.start);
    ToLfIsFree(text, w.end);
  }

  lemma NormaliseIsPlain(w: Tools, text: string)
    requires SoundTools(w) && Plain(w, text)
    ensures Plain(w, Normalise(text))
  {
    if text != "" && text[0] == BOM {
      PlainSlice(w, text, 1, |text|);
      assert text[1..|text|] == text[1..];
    }
    ToLfIsPlain(w, WithoutBom(text));
  }

  // ----- one pass after another

  function Pass(w: Tools, g: Guide, text: string): Result {
    Rewrite(w, text, Canonical(w, g), g.version, g.sha, AutoRewrite)
  }

  function PassText(w: Tools, g: Guide, text: string): string {
    Pass(w, g, text).text
  }

  /** `k` passes one after another. */
  function Passes(w: Tools, g: Guide, text: string, k: nat): string
    decreases k
  {
    if k == 0 then text else Passes(w, g, PassText(w, g, text), k - 1)
  }

  /** Marks in sight: none, one ordered pair, or one pair with the end before the start. */
  datatype Sight =
    | Nothing
    | Block(a: string, mid: string, z: string)
    | Crossed(a: string, mid: string, z: string)

  ghost predicate Shows(w: Tools, u: string, sight: Sight) {
    match sight
    case Nothing => Plain(w, u)
    case Block(a, mid, z) => u == a + Marked(w, mid) + z && Plain(w, a) && Plain(w, mid) && Plain(w, z)
    case Crossed(a, mid, z) => u == a + Marked(Swapped(w), mid) + z && Plain(w, a) && Plain(w, mid) && Plain(w, z)
  }

  /** The marks with their parts exchanged. */
  function Swapped(w: Tools): Tools {
    w.(start := w.end, end := w.start)
  }

  /**
   * None of the tests on a text depends on carriage returns before line feeds, or on a byte-order mark:
   * their patterns are words on one line, or skip blanks at its end.
   */
  ghost predicate EndingsUnseen(w: Tools) {
    && (forall s {:trigger w.version(ToLf(s))} :: w.version(ToLf(s)) == w.version(s))
    && (forall s {:trigger w.sha(ToLf(s))} :: w.sha(ToLf(s)) == w.sha(s))
    && (forall s {:trigger w.ours(Normalise(s))} :: w.ours(Normalise(s)) == w.ours(s))
    && forall s {:trigger w.manual(Normalise(s))} :: w.manual(Normalise(s)) == w.manual(s)
  }

  predicate EndsLine(text: string) {
    text != "" && text[|text| - 1] == '\n'
  }

  /** The front `a` of a text, as far as frontmatter goes, is in order. */
  predicate FrontInOrder(w: Tools, g: Guide, a: string) {
    FrontMatches(FrontOf(w, a, |a|, g.prefix))
  }

  /** Whole lines, with a block of the guide's version and hash behind a front in order. */
  ghost predicate Ready(w: Tools, g: Guide, v: string, a: string, mid: string, z: string) {
    && Shows(w, v, Block(a, mid, z)) && EndsLine(v)
    && w.version(Marked(w, mid)) == Some(g.version) && w.sha(Marked(w, mid)) == Some(g.sha)
    && FrontInOrder(w, g, a)
  }

  /** From here on a pass only normalises: a block is ready, or the text gives guidance by hand. */
  ghost predicate Lasting(w: Tools, g: Guide, v: string) {
    || (Plain(w, v) && w.manual(v))
    || (w.manual(v) && exists a, mid, z :: Shows(w, v, Crossed(a, mid, z)))
    || exists a, mid, z :: Ready(w, g, v, a, mid, z)
  }

  lemma SamePrefixOccurs(u: string, v: string, at: nat, m: string, i: nat)
    requires at <= |u| && at <= |v| && u[..at] == v[..at] && i + |m| <= at
    ensures OccursAt(u, m, i) <==> OccursAt(v, m, i)
  {
    SliceOfSlice(u, 0, at, i, i + |m|);
    SliceOfSlice(v, 0, at, i, i + |m|);
  }

  /** Frontmatter shows the same before and after a change behind it. */
  lemma FrontStays(w: Tools, u: string, v: string, at: nat, prefix: string)
    requires at <= |u| && at <= |v| && u[..at] == v[..at] && FrontOf(w, u, at, prefix).compatible
    ensures FrontOf(w, v, at, prefix) == FrontOf(w, u, at, prefix)
  {
    var close := Find(u, YAML_CLOSE, 4).value;
    SamePrefixOccurs(u, v, at, YAML_CLOSE, close);
    forall i: nat | 4 <= i < close
      ensures !OccursAt(v, YAML_CLOSE, i)
    {
      SamePrefixOccurs(u, v, at, YAML_CLOSE, i);
    }
    assert Find(v, YAML_CLOSE, 4) == Some(close);
    assert u[..4] == u[..at][..4] == v[..4];
    assert IsYaml(v);
    assert u[close + 5..at] == u[..at][close + 5..] == v[close + 5..at];
    if |prefix| <= at {
      assert u[at - |prefix|..at] == u[..at][at - |prefix|..] == v[at - |prefix|..at];
    }
  }

  /** Only what stands before the block counts. */
  lemma FrontIsOfFront(w: Tools, v: string, a: string, prefix: string)
    requires |a| <= |v| && v[..|a|] == a
    ensures FrontOf(w, v, |a|, prefix) == FrontOf(w, a, |a|, prefix)
  {
    assert a[..|a|] == a;
    if FrontOf(w, v, |a|, prefix).compatible {
      FrontStays(w, v, a, |a|, prefix);
    } else if FrontOf(w, a, |a|, prefix).compatible {
      FrontStays(w, a, v, |a|, prefix);
    } else if |prefix| <= |a| {
      assert v[|a| - |prefix|..|a|] == v[..|a|][|a| - |prefix|..] == a[|a| - |prefix|..|a|];
    }
  }

  // ----- frontmatter

  lemma GuideSeams(w: Tools, g: Guide, a: string)
    requires SoundTools(w) && SoundGuide(w, g)
    ensures Seam(a, g.prefix) && (a == "" || g.prefix == "" || g.prefix[0] == '-')
    ensures g.prefix != "" ==>
      |g.prefix| > 4 && g.prefix[..4] == YAML_OPEN && g.prefix[0] == '-' && g.prefix[|g.prefix| - 1] == '\n' && IsYaml(g.prefix)
  {
    if g.prefix != "" {
      var body :| g.prefix == YAML_OPEN + body + (YAML_CLOSE + "\n");
      assert g.prefix[..4] == YAML_OPEN && g.prefix[0] == '-' && g.prefix[1] == '-' && g.prefix[2] == '-' && g.prefix[3] == '\n';
      assert g.prefix[|g.prefix| - 1] == (YAML_CLOSE + "\n")[5];
    }
  }

  lemma ExactFrontLasts(w: Tools, g: Guide, a: string)
    requires SoundTools(w) && SoundGuide(w, g) && FrontOf(w, a, |a|, g.prefix).exact
    ensures FrontOf(w, Normalise(a), |Normalise(a)|, g.prefix).exact
  {
    GuideSeams(w, g, "");
    var x := a[..|a| - |g.prefix|];
    assert a[|a| - |g.prefix|..|a|] == g.prefix;
    assert a == x + g.prefix;
    NormaliseBefore(x, g.prefix);
    ExactBehind(w, Normalise(x), g.prefix, Normalise(a));
  }

  lemma ExactBehind(w: Tools, x: string, prefix: string, a: string)
    requires a == x + prefix
    ensures FrontOf(w, a, |a|, prefix).exact
  {
    assert a[|a| - |prefix|..|a|] == prefix;
  }

  lemma NormaliseBefore(x: string, y: string)
    requires Unix(y) && (y != "" ==> y[0] != '\n')
    ensures Normalise(x + y) == Normalise(x) + y
  {
    NormaliseKeeps(y);
    if x == "" {
      assert x + y == y && Normalise(x) + y == y;
    } else {
      assert WithoutBom(x + y) == WithoutBom(x) + y;
      ToLfParts(WithoutBom(x), y);
    }
  }

  /** Closed frontmatter is still closed there, with no less text behind it, once line ends are normalised. */
  lemma ClosedFrontLasts(a: string, c: nat) returns (c': nat)
    requires IsYaml(a) && 4 <= c && OccursAt(a, YAML_CLOSE, c)
    ensures var b := ToLf(a); IsYaml(b) && 4 <= c' && OccursAt(b, YAML_CLOSE, c') && b[c' + 5..] == ToLf(a[c + 5..])
  {
    var before, rest := a[..c], a[c + 5..];
    assert before[..4] == a[..4] == YAML_OPEN;
    assert before[3] == '\n';
    assert a == before + YAML_CLOSE + rest by {
      assert a[c..c + 5] == YAML_CLOSE;
    }
    if before[c - 1] == '\r' {
      var cut := before[..c - 1];
      assert before == cut + "\r" && cut[..4] == before[..4];
      assert a == cut + ("\r" + YAML_CLOSE) + rest;
      c' := ClosedAt(a, cut, "\r" + YAML_CLOSE, rest);
    } else {
      c' := ClosedAt(a, before, YAML_CLOSE, rest);
    }
  }

  lemma ClosedAt(a: string, cut: string, closed: string, rest: string) returns (c': nat)
    requires a == cut + closed + rest && |cut| >= 4 && cut[..4] == YAML_OPEN
    requires closed == "\r" + YAML_CLOSE || (closed == YAML_CLOSE && cut[|cut| - 1] != '\r')
    ensures var b := ToLf(a); IsYaml(b) && 4 <= c' && OccursAt(b, YAML_CLOSE, c') && b[c' + 5..] == ToLf(rest)
  {
    assert closed[|closed| - 1] == '\n' && (cut + closed)[|cut + closed| - 1] == '\n';
    ToLfParts(cut + closed, rest);
    ToLfParts(cut, closed);
    ClosingToLf(closed);
    OpeningToLf(cut);
    c' := |ToLf(cut)|;
    Found(ToLf(a), ToLf(cut), YAML_CLOSE, ToLf(rest));
  }

  lemma Found(b: string, x: string, m: string, y: string)
    requires b == x + m + y && |x| >= 4 && x[..4] == YAML_OPEN
    ensures IsYaml(b) && OccursAt(b, m, |x|) && b[|x| + |m|..] == y
  {
    assert b[|x|..|x| + |m|] == m && b[..4] == x[..4];
  }

  lemma ClosingToLf(closed: string)
    requires closed == YAML_CLOSE || closed == "\r" + YAML_CLOSE
    ensures ToLf(closed) == YAML_CLOSE
  {
    if closed == YAML_CLOSE {
      ToLfKeeps(closed);
    } else {
      assert closed[0] == '\r' && closed[1] == '\n' && closed[2..] == "---\n";
      ToLfKeeps(closed[2..]);
    }
  }

  lemma OpeningToLf(cut: string)
    requires |cut| >= 4 && cut[..4] == YAML_OPEN
    ensures |ToLf(cut)| >= 4 && ToLf(cut)[..4] == YAML_OPEN
  {
    assert cut == YAML_OPEN + cut[4..];
    ToLfParts(YAML_OPEN, cut[4..]);
    ToLfKeeps(YAML_OPEN);
  }

  lemma {:induction false} BlankOfLf(text: string)
    requires IsBlank(ToLf(text))
    ensures IsBlank(text)
    decreases |text|
  {
    if text != "" {
      forall i | 0 <= i < |text|
        ensures IsSpace(text[i])
      {
        SpacesOfLf(text, i);
      }
      SpacesAreBlank(text);
    }
  }

  lemma {:induction false} SpacesOfLf(text: string, i: nat)
    requires IsBlank(ToLf(text)) && i < |text|
    ensures IsSpace(text[i])
    decreases |text|
  {
    var lf := ToLf(text);
    forall j | 0 <= j < |lf|
      ensures IsSpace(lf[j])
    {
      BlankIsSpaces(lf, j);
    }
    if |text| > 1 && text[0] == '\r' && text[1] == '\n' {
      if i > 1 {
        assert ToLf(text[2..]) == lf[1..];
        SpacesAreBlank(lf[1..]);
        SpacesOfLf(text[2..], i - 2);
      }
    } else {
      ToLfStep(text);
      if i > 0 {
        assert ToLf(text[1..]) == lf[1..];
        SpacesAreBlank(lf[1..]);
        SpacesOfLf(text[1..], i - 1);
      } else {
        assert lf[0] == text[0];
      }
    }
  }

  lemma {:induction false} SpacesAreBlank(text: string)
    requires forall i :: 0 <= i < |text| ==> IsSpace(text[i])
    ensures IsBlank(text)
  {
    if text != "" {
      SpacesAreBlank(text[..|text| - 1]);
    }
  }

  lemma BlankIsSpaces(text: string, i: nat)
    requires IsBlank(text) && i < |text|
    ensures IsSpace(text[i])
    decreases |text|
  {
    if i < |text| - 1 {
      BlankIsSpaces(text[..|text| - 1], i);
    }
  }

  lemma BlankSlice(text: string, lo: nat)
    requires IsBlank(text) && lo <= |text|
    ensures IsBlank(text[lo..])
  {
    forall i | 0 <= i < |text[lo..]|
      ensures IsSpace(text[lo..][i])
    {
      BlankIsSpaces(text, lo + i);
    }
    SpacesAreBlank(text[lo..]);
  }

  /** A front in order stays so when it is normalised. */
  lemma FrontLasts(w: Tools, g: Guide, a: string)
    requires SoundTools(w) && SoundGuide(w, g) && EndingsUnseen(w) && FrontInOrder(w, g, a)
    ensures FrontInOrder(w, g, Normalise(a))
  {
    var f := FrontOf(w, a, |a|, g.prefix);
    assert a[..|a|] == a;
    if f.exact {
      ExactFrontLasts(w, g, a);
    } else {
      var c := Find(a, YAML_CLOSE, 4).value;
      assert a[0] == '-' && Normalise(a) == ToLf(a);
      var c' := ClosedFrontLasts(a, c);
      ClosedFrontInOrder(w, g, a, ToLf(a), c, c');
    }
  }

  lemma ClosedFrontInOrder(w: Tools, g: Guide, a: string, b: string, c: nat, c': nat)
    requires IsYaml(g.prefix) && IsYaml(b) && w.ours(b) == w.ours(a)
    requires c + 5 <= |a| && 4 <= c' && OccursAt(b, YAML_CLOSE, c') && b[c' + 5..] == ToLf(a[c + 5..])
    requires !(IsBlank(a[c + 5..]) && w.ours(a))
    ensures FrontInOrder(w, g, b)
  {
    var close := Find(b, YAML_CLOSE, 4).value;
    var behind := b[close + 5..];
    assert close <= c' && b[..|b|] == b && b[close + 5..|b|] == behind;
    if IsBlank(behind) {
      BlankSlice(behind, c' - close);
      assert behind[c' - close..] == b[c' + 5..];
      BlankOfLf(a[c + 5..]);
    }
  }

  // ----- a lasting text

  lemma NormaliseParts(w: Tools, a: string, mid: string, z: string)
    requires SoundTools(w)
    ensures Normalise(a + Marked(w, mid) + z) == Normalise(a) + Marked(w, ToLf(mid)) + ToLf(z)
    ensures ToLf(Marked(w, mid)) == Marked(w, ToLf(mid))
  {
    MarkedEnds(w, mid);
    var block, v := Marked(w, mid), a + Marked(w, mid) + z;
    assert WithoutBom(v) == WithoutBom(a) + block + z by {
      if a == "" {
        assert v == block + z;
      }
    }
    ToLfParts(WithoutBom(a) + block, z);
    ToLfParts(WithoutBom(a), block);
    MarksToLf(w, mid);
  }

  lemma MarksToLf(w: Tools, mid: string)
    requires SoundTools(w)
    ensures ToLf(Marked(w, mid)) == Marked(w, ToLf(mid))
  {
    ToLfKeeps(w.start);
    ToLfKeeps(w.end);
    ToLfParts(w.start + mid, w.end);
    ToLfParts(w.start, mid);
  }

  lemma MarkedEnds(w: Tools, mid: string)
    requires SoundTools(w)
    ensures Marked(w, mid) != "" && Marked(w, mid)[0] == '<' && Marked(w, mid)[|Marked(w, mid)| - 1] == '>'
  {
  }

  lemma ReadyNormalised(w: Tools, g: Guide, v: string, a: string, mid: string, z: string)
    requires SoundTools(w) && SoundGuide(w, g) && EndingsUnseen(w) && Ready(w, g, v, a, mid, z)
    ensures Ready(w, g, Normalise(v), Normalise(a), ToLf(mid), ToLf(z))
  {
    NormaliseParts(w, a, mid, z);
    NormaliseShows(w, a, mid, z);
    FrontLasts(w, g, a);
    NormaliseEndsLine(v);
  }

  lemma NormaliseShows(w: Tools, a: string, mid: string, z: string)
    requires SoundTools(w) && Plain(w, a) && Plain(w, mid) && Plain(w, z)
    ensures Shows(w, Normalise(a + Marked(w, mid) + z), Block(Normalise(a), ToLf(mid), ToLf(z)))
  {
    NormaliseParts(w, a, mid, z);
    NormaliseIsPlain(w, a);
    ToLfIsPlain(w, mid);
    ToLfIsPlain(w, z);
  }

  lemma NormaliseEndsLine(v: string)
    requires EndsLine(v)
    ensures EndsLine(Normalise(v))
  {
    assert v[0] == BOM ==> |v| > 1;
    ToLfEnds(WithoutBom(v));
  }

  /** Normalised, a ready block is left as it is. */
  lemma ReadyIsKept(w: Tools, g: Guide, text: string, u: string, a: string, mid: string, z: string)
    requires SoundTools(w) && SoundGuide(w, g) && u == Normalise(text) && Ready(w, g, u, a, mid, z)
    ensures Pass(w, g, text) == Result(u, NoOp, false)
  {
    BlockRewrite(w, g, text, u, a, mid, z);
  }

  /** A pass over a lasting text normalises it, and leaves it lasting. */
  lemma LastingPass(w: Tools, g: Guide, v: string)
    requires SoundTools(w) && SoundGuide(w, g) && EndingsUnseen(w) && Lasting(w, g, v)
    ensures Pass(w, g, v).text == Normalise(v) && Lasting(w, g, Normalise(v))
  {
    if Plain(w, v) && w.manual(v) {
      NormaliseIsPlain(w, v);
      SameMarks(w, v);
      NoBlock(w, Normalise(v));
    } else if w.manual(v) && exists a, mid, z :: Shows(w, v, Crossed(a, mid, z)) {
      var a, mid, z :| Shows(w, v, Crossed(a, mid, z));
      NormaliseShows(Swapped(w), a, mid, z);
      SameMarks(w, v);
      CrossedIsNoBlock(w, Normalise(v), Normalise(a), ToLf(mid), ToLf(z));
      assert Shows(w, Normalise(v), Crossed(Normalise(a), ToLf(mid), ToLf(z)));
    } else {
      var a, mid, z :| Ready(w, g, v, a, mid, z);
      ReadyNormalised(w, g, v, a, mid, z);
      ReadyIsKept(w, g, v, Normalise(v), Normalise(a), ToLf(mid), ToLf(z));
    }
  }

  /** A lasting text of depth `d` settles after exactly `d` passes. */
  lemma {:induction false} LastingSettles(w: Tools, g: Guide, v: string, k: nat, more: nat)
    requires SoundTools(w) && SoundGuide(w, g) && EndingsUnseen(w) && Lasting(w, g, v) && more == k + 1
    ensures Passes(w, g, v, more) == Passes(w, g, v, k) <==> k >= Depth(v)
    decreases k
  {
    LastingPass(w, g, v);
    var next := Pass(w, g, v).text;
    if k > 0 {
      LastingSettles(w, g, next, k - 1, k);
    }
    NextSettles(w, g, v, next, k, more);
  }

  lemma NextSettles(w: Tools, g: Guide, v: string, next: string, k: nat, more: nat)
    requires next == Pass(w, g, v).text == Normalise(v) && more == k + 1
    requires k > 0 ==> (Passes(w, g, next, k) == Passes(w, g, next, k - 1) <==> k - 1 >= Depth(next))
    ensures Passes(w, g, v, more) == Passes(w, g, v, k) <==> k >= Depth(v)
  {
    NormaliseTakesOne(v);
    PassesStep(w, g, v, next, k, more);
  }

  lemma PassesStep(w: Tools, g: Guide, v: string, next: string, k: nat, more: nat)
    requires next == Pass(w, g, v).text && more == k + 1
    ensures Passes(w, g, v, more) == Passes(w, g, next, k)
    ensures Passes(w, g, v, k) == if k == 0 then v else Passes(w, g, next, k - 1)
    ensures Passes(w, g, next, 0) == next
  {
    PassesUnfold(w, g, v, PassText(w, g, v), k, more);
  }

  lemma PassesUnfold(w: Tools, g: Guide, v: string, next: string, k: nat, more: nat)
    requires next == PassText(w, g, v) && more == k + 1
    ensures Passes(w, g, v, more) == Passes(w, g, next, k)
    ensures Passes(w, g, v, k) == if k == 0 then v else Passes(w, g, next, k - 1)
    ensures Passes(w, g, next, 0) == next
  {
  }

  // ----- what a pass over a block leaves

  /** What stands before the new block: the text before the old one, but for frontmatter of ours that is outdated. */
  function NewFront(g: Guide, f: Front, a: string): string {
    if f.exact then a else if f.outdated then g.prefix else if f.compatible then a else a + g.prefix
  }

  /** What stands after it: the text after the old one, on a new line and ending one. */
  function NewRest(z: string): string {
    EnsureNewline("\n" + if z != "" && z[0] == '\n' then z[1..] else z)
  }

  /**
   * Replacing a block keeps the text outside it, character for character: frontmatter of ours is put in front of the
   * block where none stands, and takes the place of one of ours that is outdated; behind the block a line feed is
   * added where none follows, and at the end of the text.
   */
  lemma ReplaceKeepsOutside(w: Tools, g: Guide, a: string, mid: string, z: string)
    requires SoundTools(w) && SoundGuide(w, g) && Plain(w, a) && Plain(w, mid) && Plain(w, z)
    ensures var u, range := a + Marked(w, mid) + z, Range(|a|, |a| + |Marked(w, mid)|);
      && ManagedRange(w, u) == Some(range)
      && Replaced(w, u, range, Canonical(w, g)) == NewFront(g, FrontOf(w, u, |a|, g.prefix), a) + BlockText(w, g) + NewRest(z)
  {
    var u := a + Marked(w, mid) + z;
    OneBlock(w, a, mid, z);
    CanonicalParts(w, g);
    assert u[..|a|] == a && u[|a| + |Marked(w, mid)|..] == z;
    ReplacedAround(w, g, u, Range(|a|, |a| + |Marked(w, mid)|), FrontOf(w, u, |a|, g.prefix), a, z);
  }

  /** The text around a new block, in full. */
  lemma AroundReads(g: Guide, f: Front, a: string, z: string)
    ensures f.exact || (f.compatible && !f.outdated) ==> NewFront(g, f, a) == a
    ensures !f.exact && f.outdated ==> NewFront(g, f, a) == g.prefix
    ensures !f.exact && !f.compatible && !f.outdated ==> NewFront(g, f, a) == a + g.prefix
    ensures var rest := if z != "" && z[0] == '\n' then z else "\n" + z;
      NewRest(z) == if rest[|rest| - 1] == '\n' then rest else rest + "\n"
  {
    if z != "" && z[0] == '\n' {
      assert "\n" + z[1..] == z;
    }
  }

  lemma ReplacedAround(w: Tools, g: Guide, u: string, range: Range, f: Front, a: string, z: string)
    requires range.start <= range.end <= |u| && u[..range.start] == a && u[range.end..] == z
    requires PrefixOf(w, Canonical(w, g)) == g.prefix && BlockOf(w, Canonical(w, g)) == BlockText(w, g) + "\n"
    requires f == FrontOf(w, u, range.start, g.prefix)
    ensures Replaced(w, u, range, Canonical(w, g)) == NewFront(g, f, a) + BlockText(w, g) + NewRest(z)
  {
    if f.exact {
      assert u[range.start - |g.prefix|..range.start] == g.prefix;
      assert u[..range.start - |g.prefix|] + g.prefix == a;
    }
    var suffix := if z != "" && z[0] == '\n' then z[1..] else z;
    ReplacementForm(NewFront(g, f, a), BlockText(w, g), suffix);
    ReplacedIs(w, g, u, range, f, NewFront(g, f, a), suffix);
  }

  lemma ReplacementForm(front: string, block: string, suffix: string)
    ensures EnsureNewline(front + (block + "\n") + suffix) == front + block + EnsureNewline("\n" + suffix)
  {
    assert front + (block + "\n") + suffix == front + block + ("\n" + suffix);
  }

  lemma ReplacedIs(w: Tools, g: Guide, u: string, range: Range, f: Front, front: string, suffix: string)
    requires range.start <= range.end <= |u|
    requires PrefixOf(w, Canonical(w, g)) == g.prefix && BlockOf(w, Canonical(w, g)) == BlockText(w, g) + "\n"
    requires f == FrontOf(w, u, range.start, g.prefix) && front == NewFront(g, f, u[..range.start])
    requires f.exact ==> |g.prefix| <= range.start && u[..range.start - |g.prefix|] + g.prefix == u[..range.start]
    requires var rest := u[range.end..]; suffix == if rest != "" && rest[0] == '\n' then rest[1..] else rest
    ensures Replaced(w, u, range, Canonical(w, g)) == EnsureNewline(front + (BlockText(w, g) + "\n") + suffix)
  {
    var block, before := BlockText(w, g) + "\n", u[..range.start];
    if f.exact {
      Associates(u[..range.start - |g.prefix|], g.prefix, block);
    } else if f.outdated {
      assert u[..0] + (g.prefix + block) == g.prefix + block;
    } else if !f.compatible {
      Associates(before, g.prefix, block);
    }
    assert block[|block| - 1] == '\n' && (g.prefix + block)[|g.prefix + block| - 1] == '\n';
  }

  lemma Associates(x: string, y: string, z: string)
    ensures x + (y + z) == x + y + z
  {
  }

  /** The new front is in order, whatever the old one was. */
  lemma NewFrontIsInOrder(w: Tools, g: Guide, a: string)
    ensures FrontInOrder(w, g, NewFront(g, FrontOf(w, a, |a|, g.prefix), a))
  {
    var f := FrontOf(w, a, |a|, g.prefix);
    var front := NewFront(g, f, a);
    if !f.exact && (f.outdated || !f.compatible) {
      assert front[|front| - |g.prefix|..|front|] == g.prefix;
    }
  }

  lemma NewFrontIsPlain(w: Tools, g: Guide, f: Front, a: string)
    requires SoundTools(w) && SoundGuide(w, g) && Plain(w, a)
    ensures Plain(w, NewFront(g, f, a))
  {
    GuideSeams(w, g, a);
    PlainParts(w, a, g.prefix);
  }

  lemma EnsureNewlineKeeps(w: Tools, s: string)
    requires SoundTools(w) && Plain(w, s)
    ensures Plain(w, EnsureNewline(s)) && EndsLine(EnsureNewline(s))
  {
    NoAngleIsPlain(w, "\n");
    PlainParts(w, s, "\n");
  }

  lemma NewRestIsPlain(w: Tools, z: string)
    requires SoundTools(w) && Plain(w, z)
    ensures Plain(w, NewRest(z)) && EndsLine(NewRest(z))
  {
    var suffix := if z != "" && z[0] == '\n' then z[1..] else z;
    if suffix != z {
      PlainSlice(w, z, 1, |z|);
      assert z[1..|z|] == suffix;
    }
    NoAngleIsPlain(w, "\n");
    PlainParts(w, "\n", suffix);
    EnsureNewlineKeeps(w, "\n" + suffix);
  }

  lemma EndsAlike(s: string, z: string)
    requires s != "" && s[|s| - 1] != '\n'
    ensures EnsureNewline(s + z) == s + EnsureNewline(z)
  {
    if z == "" {
      assert s + z == s;
    } else {
      assert (s + z)[|s + z| - 1] == z[|z| - 1];
      assert s + z + "\n" == s + (z + "\n");
    }
  }

  lemma KeptIsReady(w: Tools, g: Guide, u: string, a: string, mid: string, z: string)
    requires SoundTools(w) && SoundGuide(w, g) && Shows(w, u, Block(a, mid, z))
    requires w.version(Marked(w, mid)) == Some(g.version) && w.sha(Marked(w, mid)) == Some(g.sha) && FrontInOrder(w, g, a)
    ensures Ready(w, g, EnsureNewline(u), a, mid, EnsureNewline(z))
  {
    MarkedEnds(w, mid);
    EndsAlike(a + Marked(w, mid), z);
    EnsureNewlineKeeps(w, z);
  }

  lemma ReplacedIsReady(w: Tools, g: Guide, v: string, a: string, z: string, front: string)
    requires SoundTools(w) && SoundGuide(w, g) && Plain(w, a) && Plain(w, z)
    requires front == NewFront(g, FrontOf(w, a, |a|, g.prefix), a) && v == front + BlockText(w, g) + NewRest(z)
    ensures Ready(w, g, v, front, g.mid, NewRest(z))
  {
    NewFrontIsInOrder(w, g, a);
    NewFrontIsPlain(w, g, FrontOf(w, a, |a|, g.prefix), a);
    NewRestIsPlain(w, z);
    assert v[|v| - 1] == NewRest(z)[|NewRest(z)| - 1];
  }

  lemma BlockRewrite(w: Tools, g: Guide, text: string, u: string, a: string, mid: string, z: string)
    requires SoundTools(w) && SoundGuide(w, g) && u == Normalise(text) && Shows(w, u, Block(a, mid, z))
    ensures var r, block := Pass(w, g, text), Marked(w, mid);
      if w.version(block).None? then r == Result(text, Fail, false)
      else if w.version(block) == Some(g.version) && w.sha(block) == Some(g.sha) && FrontInOrder(w, g, a)
      then r == Result(EnsureNewline(u), NoOp, false)
      else r.action == ReplaceBlock && r.text == Replaced(w, u, Range(|a|, |a| + |block|), Canonical(w, g))
  {
    SameMarks(w, text);
    OneBlock(w, a, mid, z);
    CanonicalParts(w, g);
    StartsWith(a, Marked(w, mid), z);
    FrontIsOfFront(w, u, a, g.prefix);
  }

  lemma StartsWith(a: string, block: string, z: string)
    ensures (a + block + z)[..|a|] == a
  {
  }

  /** Over a text with one block a pass refuses, or leaves a block that is ready, with these parts. */
  lemma BlockPass(w: Tools, g: Guide, text: string, a: string, mid: string, z: string)
    requires SoundTools(w) && SoundGuide(w, g) && Shows(w, Normalise(text), Block(a, mid, z))
    ensures var r, u, front := Pass(w, g, text), Normalise(text), NewFront(g, FrontOf(w, a, |a|, g.prefix), a);
      && (w.version(Marked(w, mid)).None? ==> r == Result(text, Fail, false))
      && (w.version(Marked(w, mid)).Some? ==>
            || (r.action == NoOp && r.text == EnsureNewline(u) && Ready(w, g, r.text, a, mid, EnsureNewline(z)))
            || (r.action == ReplaceBlock && r.text == front + BlockText(w, g) + NewRest(z)
                && Ready(w, g, r.text, front, g.mid, NewRest(z))))
  {
    var u := Normalise(text);
    BlockRewrite(w, g, text, u, a, mid, z);
    var block := Marked(w, mid);
    if w.version(block) == Some(g.version) && w.sha(block) == Some(g.sha) && FrontInOrder(w, g, a) {
      KeptIsReady(w, g, u, a, mid, z);
    } else if w.version(block).Some? {
      ReplacedText(w, g, u, a, mid, z);
    }
  }

  lemma ReplacedText(w: Tools, g: Guide, u: string, a: string, mid: string, z: string)
    requires SoundTools(w) && SoundGuide(w, g) && Shows(w, u, Block(a, mid, z))
    ensures var front := NewFront(g, FrontOf(w, a, |a|, g.prefix), a);
      var v := Replaced(w, u, Range(|a|, |a| + |Marked(w, mid)|), Canonical(w, g));
      v == front + BlockText(w, g) + NewRest(z) && Ready(w, g, v, front, g.mid, NewRest(z))
  {
    ReplaceKeepsOutside(w, g, a, mid, z);
    StartsWith(a, Marked(w, mid), z);
    FrontIsOfFront(w, u, a, g.prefix);
    var front := NewFront(g, FrontOf(w, a, |a|, g.prefix), a);
    ReplacedIsReady(w, g, front + BlockText(w, g) + NewRest(z), a, z, front);
  }

  // ----- what a pass without one leaves

  /** What stands before an appended block. */
  function AppendFront(g: Guide, u: string): string {
    if IsYaml(g.prefix) && !IsBlank(u) then (if IsYaml(u) then TrimEnd(u) else g.prefix + TrimEnd(u)) + "\n\n"
    else (if IsBlank(u) then "" else TrimEnd(u) + "\n\n") + g.prefix
  }

  /** An appended block comes after all of the user's text but its trailing blanks, and after frontmatter. */
  lemma AppendKeepsText(w: Tools, g: Guide, u: string)
    requires SoundTools(w) && SoundGuide(w, g)
    ensures Appended(w, u, Canonical(w, g)) == AppendFront(g, u) + BlockText(w, g) + "\n"
    ensures var kept, yaml := TrimEnd(u), YAML_OPEN <= u;
      AppendFront(g, u) ==
        if kept == "" then g.prefix
        else if g.prefix == "" || yaml then kept + "\n\n"
        else g.prefix + kept + "\n\n"
  {
    AppendFrontReads(w, g, u);
    CanonicalParts(w, g);
    GuideSeams(w, g, "");
    var block := BlockText(w, g);
    if IsYaml(g.prefix) && !IsBlank(u) {
      LineEnded(if IsYaml(u) then TrimEnd(u) else g.prefix + TrimEnd(u), "\n\n", block);
    } else {
      LineEnded(if IsBlank(u) then "" else TrimEnd(u) + "\n\n", g.prefix, block);
    }
  }

  lemma AppendFrontReads(w: Tools, g: Guide, u: string)
    requires g.prefix == "" || IsFrontmatter(g.prefix)
    ensures var kept, yaml := TrimEnd(u), YAML_OPEN <= u;
      AppendFront(g, u) ==
        if kept == "" then g.prefix
        else if g.prefix == "" || yaml then kept + "\n\n"
        else g.prefix + kept + "\n\n"
  {
    if g.prefix != "" {
      var body: string :| g.prefix == YAML_OPEN + body + (YAML_CLOSE + "\n");
      assert YAML_OPEN <= g.prefix;
    } else {
      assert TrimEnd(u) + "\n\n" + g.prefix == TrimEnd(u) + "\n\n";
    }
  }

  lemma LineEnded(x: string, y: string, block: string)
    ensures EnsureNewline(x + y + (block + "\n")) == x + y + block + "\n"
    ensures EnsureNewline(x + (y + (block + "\n"))) == x + y + block + "\n"
  {
    var all := x + y + block + "\n";
    assert x + y + (block + "\n") == all && x + (y + (block + "\n")) == all;
    assert all[|all| - 1] == '\n';
  }

  lemma TrimEndIsPlain(w: Tools, u: string)
    requires SoundTools(w) && Plain(w, u)
    ensures Plain(w, TrimEnd(u) + "\n\n")
  {
    var t := TrimEnd(u);
    PlainSlice(w, u, 0, |t|);
    assert u[0..|t|] == t;
    NoAngleIsPlain(w, "\n\n");
    PlainParts(w, t, "\n\n");
  }

  lemma AppendFrontIsPlain(w: Tools, g: Guide, u: string)
    requires SoundTools(w) && SoundGuide(w, g) && Plain(w, u)
    ensures Plain(w, AppendFront(g, u))
  {
    GuideSeams(w, g, "");
    var kept := TrimEnd(u) + "\n\n";
    TrimEndIsPlain(w, u);
    if IsBlank(u) {
      assert "" + g.prefix == g.prefix;
    } else if g.prefix == "" {
      assert kept + "" == kept;
    } else if !IsYaml(u) {
      PlainParts(w, g.prefix, kept);
      assert g.prefix + TrimEnd(u) + "\n\n" == g.prefix + kept;
    }
  }

  /** Behind our own frontmatter and the user's text, the front is in order. */
  lemma OwnFrontIsInOrder(w: Tools, g: Guide, t: string)
    requires SoundTools(w) && SoundGuide(w, g) && g.prefix != "" && t != "" && !IsSpace(t[|t| - 1])
    ensures FrontInOrder(w, g, g.prefix + t + "\n\n")
  {
    GuideSeams(w, g, "");
    var c := FrontmatterCloses(g.prefix);
    OwnFrontCloses(g.prefix, t, g.prefix + t + "\n\n", c);
    TextBetween(g.prefix + t + "\n\n", g.prefix, t, c + 5);
    ClosedIsInOrder(w, g, g.prefix + t + "\n\n", c);
  }

  lemma OwnFrontCloses(prefix: string, t: string, a: string, c: nat)
    requires prefix + t <= a && c + 5 < |prefix| && prefix[c..c + 5] == YAML_CLOSE && prefix[..4] == YAML_OPEN
    ensures IsYaml(a) && OccursAt(a, YAML_CLOSE, c)
  {
    assert a[c..c + 5] == prefix[c..c + 5] && a[..4] == prefix[..4];
  }

  /** Frontmatter closed before other text is in order. */
  lemma ClosedIsInOrder(w: Tools, g: Guide, a: string, c: nat)
    requires IsYaml(g.prefix) && IsYaml(a) && 4 <= c && OccursAt(a, YAML_CLOSE, c) && !IsBlank(a[c + 5..])
    ensures FrontInOrder(w, g, a)
  {
    var close := Find(a, YAML_CLOSE, 4).value;
    var behind := a[close + 5..];
    assert a[..|a|] == a && a[close + 5..|a|] == behind;
    assert behind[c - close..] == a[c + 5..];
    SuffixNotBlank(behind, c - close);
  }

  lemma SuffixNotBlank(text: string, lo: nat)
    requires lo <= |text| && !IsBlank(text[lo..])
    ensures !IsBlank(text)
  {
    if IsBlank(text) {
      BlankSlice(text, lo);
    }
  }

  lemma FrontmatterCloses(prefix: string) returns (c: nat)
    requires IsFrontmatter(prefix)
    ensures 4 <= c && c + 5 < |prefix| && prefix[c..c + 5] == YAML_CLOSE && prefix[..4] == YAML_OPEN
  {
    var body :| prefix == YAML_OPEN + body + (YAML_CLOSE + "\n");
    c := 4 + |body|;
    var head := YAML_OPEN + body;
    assert prefix == head + (YAML_CLOSE + "\n") && |head| == c;
    assert prefix[c..] == YAML_CLOSE + "\n";
    assert prefix[c..][..5] == YAML_CLOSE;
  }

  /** Between the frontmatter and the block is the user's text. */
  lemma TextBetween(a: string, prefix: string, t: string, from: nat)
    requires from <= |prefix| && t != "" && !IsSpace(t[|t| - 1]) && a == prefix + t + "\n\n"
    ensures !IsBlank(a[from..])
  {
    var last, between := |prefix| + |t| - 1, a[from..];
    assert a[last] == t[|t| - 1];
    assert between[last - from] == a[last];
    if IsBlank(between) {
      BlankIsSpaces(between, last - from);
    }
  }

  /** An appended block's front is in order, unless frontmatter of the user's own comes first. */
  lemma AppendFrontIsInOrder(w: Tools, g: Guide, u: string)
    requires SoundTools(w) && SoundGuide(w, g) && (g.prefix == "" || IsBlank(u) || !IsYaml(u))
    ensures FrontInOrder(w, g, AppendFront(g, u))
  {
    GuideSeams(w, g, "");
    var front := AppendFront(g, u);
    if g.prefix == "" {
      assert front[|front|..|front|] == "";
    } else if IsBlank(u) {
      assert front == "" + g.prefix == g.prefix && front[0..|front|] == g.prefix;
    } else {
      OwnFrontIsInOrder(w, g, TrimEnd(u));
    }
  }

  lemma NoBlockPass(w: Tools, g: Guide, text: string)
    requires SoundTools(w) && SoundGuide(w, g) && Plain(w, Normalise(text))
    ensures var r, u := Pass(w, g, text), Normalise(text);
      if w.manual(u) then r == Result(u, LeaveManual, false)
      else
        && r == Result(AppendFront(g, u) + BlockText(w, g) + "\n", AppendBlock, false)
        && Shows(w, r.text, Block(AppendFront(g, u), g.mid, "\n")) && EndsLine(r.text)
        && (FrontInOrder(w, g, AppendFront(g, u)) ==> Ready(w, g, r.text, AppendFront(g, u), g.mid, "\n"))
  {
    var u := Normalise(text);
    SameMarks(w, text);
    NoBlock(w, u);
    AppendKeepsText(w, g, u);
    AppendFrontIsPlain(w, g, u);
    NoAngleIsPlain(w, "\n");
    var v := AppendFront(g, u) + BlockText(w, g) + "\n";
    assert v[|v| - 1] == '\n';
  }

  lemma {:induction false} TrimEndKeeps(head: string, z: string)
    requires head != "" && !IsSpace(head[|head| - 1])
    ensures head <= TrimEnd(head + z)
    decreases |z|
  {
    if z == "" {
      assert head + z == head;
    } else {
      assert (head + z)[..|head + z| - 1] == head + z[..|z| - 1];
      TrimEndKeeps(head, z[..|z| - 1]);
    }
  }

  lemma NormaliseAround(x: string, m: string, y: string)
    requires IsMark(m)
    ensures Normalise(x + m + y) == Normalise(x) + m + ToLf(y)
  {
    var text := x + m + y;
    assert WithoutBom(text) == WithoutBom(x) + m + y by {
      if x == "" {
        assert text == m + y;
      }
    }
    ToLfParts(WithoutBom(x) + m, y);
    ToLfParts(WithoutBom(x), m);
    ToLfKeeps(m);
  }

  lemma ToLfAround(x: string, m: string, y: string)
    requires IsMark(m)
    ensures ToLf(x + m + y) == ToLf(x) + m + ToLf(y)
  {
    ToLfParts(x + m, y);
    ToLfParts(x, m);
    ToLfKeeps(m);
  }

  lemma OccursBetween(x: string, m: string, y: string)
    ensures OccursAt(x + m + y, m, |x|)
  {
  }

  lemma TwoStarts(w: Tools, text: string, x: string, y: string, z: string)
    requires SoundTools(w) && text == x + w.start + (y + w.start + z)
    ensures Count(text, w.start, 0) >= 2
  {
    var first := x + w.start + y;
    assert text == first + w.start + z;
    OccursBetween(x, w.start, y + w.start + z);
    OccursBetween(first, w.start, z);
    CountTwo(text, w.start, |x|, |first|, 0);
  }

  lemma TwoStartsNormalised(w: Tools, text: string, x: string, y: string, z: string)
    requires SoundTools(w) && text == x + w.start + (y + w.start + z)
    ensures Normalise(text) == Normalise(x) + w.start + (ToLf(y) + w.start + ToLf(z))
  {
    NormaliseAround(x, w.start, y + w.start + z);
    ToLfAround(y, w.start, z);
  }

  /** A text with two start marks is refused, whatever line ends it has. */
  lemma TwoStartsAreRefused(w: Tools, g: Guide, text: string, x: string, y: string, z: string)
    requires SoundTools(w) && text == x + w.start + (y + w.start + z)
    ensures Pass(w, g, text) == Result(text, Fail, false)
  {
    TwoStartsNormalised(w, text, x, y, z);
    TwoStarts(w, Normalise(text), Normalise(x), ToLf(y), ToLf(z));
    MalformedIsRefused(w, g, text);
  }

  lemma MalformedIsRefused(w: Tools, g: Guide, text: string)
    requires Malformed(w, Normalise(text))
    ensures Pass(w, g, text) == Result(text, Fail, false)
  {
  }

  /** What stands before an appended block holds all of the user's text but its trailing blanks. */
  lemma AppendFrontHolds(w: Tools, g: Guide, u: string) returns (own: string, tail: string)
    requires SoundTools(w) && SoundGuide(w, g) && !IsBlank(u)
    ensures AppendFront(g, u) == own + TrimEnd(u) + tail
  {
    GuideSeams(w, g, "");
    if IsYaml(g.prefix) && !IsYaml(u) {
      own, tail := g.prefix, "\n\n";
    } else {
      own, tail := "", "\n\n";
      assert g.prefix == "" ==> TrimEnd(u) + "\n\n" + g.prefix == own + TrimEnd(u) + tail;
    }
  }

  lemma CrossedKept(w: Tools, g: Guide, u: string, a: string, mid: string, z: string) returns (x: string, y: string)
    requires SoundTools(w) && SoundGuide(w, g) && u == a + Marked(Swapped(w), mid) + z
    ensures AppendFront(g, u) == x + w.start + y
  {
    var before := a + w.end + mid;
    var head := before + w.start;
    assert head[|head| - 1] == w.start[|w.start| - 1] == '>';
    assert u == head + z;
    TrimEndKeeps(head, z);
    var rest := TrimEnd(u)[|head|..];
    assert TrimEnd(u) == before + w.start + rest;
    var own, tail := AppendFrontHolds(w, g, u);
    x, y := own + before, rest + tail;
    Regathered(own, before, w.start, rest, tail);
  }

  lemma Regathered(own: string, before: string, m: string, rest: string, tail: string)
    ensures own + (before + m + rest) + tail == own + before + m + (rest + tail)
  {
  }

  /**
   * Over a crossed pair a pass leaves guidance by hand alone; else it appends a block all the same, and
   * every later pass refuses the text for its two start marks.
   */
  lemma CrossedPass(w: Tools, g: Guide, text: string, a: string, mid: string, z: string)
    requires SoundTools(w) && SoundGuide(w, g) && Shows(w, Normalise(text), Crossed(a, mid, z))
    ensures var r, u := Pass(w, g, text), Normalise(text);
      if w.manual(u) then r == Result(u, LeaveManual, false)
      else
        && r == Result(AppendFront(g, u) + BlockText(w, g) + "\n", AppendBlock, false)
        && Pass(w, g, r.text) == Result(r.text, Fail, false)
  {
    var u := Normalise(text);
    CrossedAppends(w, g, text, a, mid, z);
    if !w.manual(u) {
      AppendedCrossed(w, g, u, a, mid, z, AppendFront(g, u) + BlockText(w, g) + "\n");
    }
  }

  lemma CrossedAppends(w: Tools, g: Guide, text: string, a: string, mid: string, z: string)
    requires SoundTools(w) && SoundGuide(w, g) && Shows(w, Normalise(text), Crossed(a, mid, z))
    ensures var u := Normalise(text);
      Pass(w, g, text) == if w.manual(u) then Result(u, LeaveManual, false)
                          else Result(AppendFront(g, u) + BlockText(w, g) + "\n", AppendBlock, false)
  {
    var u := Normalise(text);
    SameMarks(w, text);
    CrossedIsNoBlock(w, u, a, mid, z);
    AppendKeepsText(w, g, u);
  }

  lemma AppendedCrossed(w: Tools, g: Guide, u: string, a: string, mid: string, z: string, once: string)
    requires SoundTools(w) && SoundGuide(w, g) && u == a + Marked(Swapped(w), mid) + z
    requires once == AppendFront(g, u) + BlockText(w, g) + "\n"
    ensures Count(once, w.start, 0) >= 2 && Pass(w, g, once) == Result(once, Fail, false)
  {
    var x, y := CrossedKept(w, g, u, a, mid, z);
    var rest := g.mid + w.end + "\n";
    Regroup(x, w.start, y, w.start, g.mid, w.end, "\n");
    TwoStarts(w, once, x, y, rest);
    TwoStartsAreRefused(w, g, once, x, y, rest);
  }

  lemma Regroup(x: string, m: string, y: string, n: string, mid: string, e: string, line: string)
    ensures x + m + y + (n + mid + e) + line == x + m + (y + n + (mid + e + line))
  {
  }

  lemma BomHidesNoMark(u: string, m: string)
    requires IsMark(m)
    ensures forall i: nat :: OccursAt([BOM] + u, m, i) <==> i > 0 && OccursAt(u, m, i - 1)
  {
    forall i: nat
      ensures OccursAt([BOM] + u, m, i) <==> i > 0 && OccursAt(u, m, i - 1)
    {
      if i > 0 {
        OccursInSecond([BOM], u, m, i);
      } else {
        Spelled([BOM] + u, m, 0);
        assert m[0] == '<' && ([BOM] + u)[0] == BOM;
      }
    }
  }

  lemma {:induction false} CountShifted(u: string, v: string, m: string, from: nat)
    requires |v| == |u| + 1 && forall i: nat :: OccursAt(v, m, i) <==> i > 0 && OccursAt(u, m, i - 1)
    ensures Count(v, m, from + 1) == Count(u, m, from)
    decreases |u| - from
  {
    if from < |u| {
      assert OccursAt(v, m, from + 1) <==> OccursAt(u, m, from);
      CountShifted(u, v, m, from + 1);
    }
  }

  lemma BomKeepsCount(u: string, m: string)
    requires IsMark(m)
    ensures Count([BOM] + u, m, 0) == Count(u, m, 0)
  {
    BomHidesNoMark(u, m);
    CountShifted(u, [BOM] + u, m, 0);
    assert !OccursAt([BOM] + u, m, 0);
  }

  /** A byte-order mark does not change whether the marks are in order. */
  lemma SameMarks(w: Tools, text: string)
    requires SoundTools(w)
    ensures Malformed(w, ToLf(text)) <==> Malformed(w, Normalise(text))
  {
    if text != "" && text[0] == BOM {
      assert ToLf(text) == [BOM] + ToLf(text[1..]);
      BomKeepsCount(Normalise(text), w.start);
      BomKeepsCount(Normalise(text), w.end);
    }
  }

  // ----- rewriting settles

  /** The first pass leaves the front in order: it found a block, left the text to its author, or appended behind a front in order. */
  predicate LeavesOrder(w: Tools, g: Guide, u: string) {
    ManagedRange(w, u).Some? || w.manual(u) || FrontInOrder(w, g, AppendFront(g, u))
  }

  /** A single start mark with no end mark behind it, in a text that is not refused: its end mark stands before it. */
  predicate Crosses(w: Tools, u: string) {
    !Malformed(w, u) && ManagedRange(w, u).None? && Count(u, w.start, 0) == 1
  }

  /** What each sight means for these tests. */
  lemma SightsApart(w: Tools, u: string, sight: Sight)
    requires SoundTools(w) && Shows(w, u, sight)
    ensures !Malformed(w, u) && (ManagedRange(w, u).Some? <==> sight.Block?) && (Crosses(w, u) <==> sight.Crossed?)
  {
    match sight
    case Nothing =>
      NoBlock(w, u);
      CountNone(u, w.start, 0);
    case Block(a, mid, z) => OneBlock(w, a, mid, z);
    case Crossed(a, mid, z) => CrossedIsNoBlock(w, u, a, mid, z);
  }

  /** A lasting text is settled exactly when normalising does not change it. */
  lemma LastingIsSettledIff(w: Tools, g: Guide, v: string)
    requires SoundTools(w) && SoundGuide(w, g) && EndingsUnseen(w) && Lasting(w, g, v)
    ensures Pass(w, g, v).text == v <==> Unix(v)
  {
    LastingPass(w, g, v);
    NormaliseTakesOne(v);
  }

  lemma OnceIsLasting(w: Tools, g: Guide, text: string, sight: Sight)
    requires SoundTools(w) && SoundGuide(w, g) && EndingsUnseen(w) && Shows(w, Normalise(text), sight)
    requires !Pass(w, g, text).action.Fail? && LeavesOrder(w, g, Normalise(text))
    requires sight.Crossed? ==> w.manual(Normalise(text))
    ensures Lasting(w, g, Pass(w, g, text).text)
  {
    SightsApart(w, Normalise(text), sight);
    match sight
    case Block(a, mid, z) => BlockPass(w, g, text, a, mid, z);
    case Nothing => NoBlockPass(w, g, text);
    case Crossed(a, mid, z) => CrossedPass(w, g, text, a, mid, z);
  }

  /** Behind a front not in order, a block is still found by the second pass, and then is ready. */
  lemma TwiceIsLasting(w: Tools, g: Guide, text: string)
    requires SoundTools(w) && SoundGuide(w, g) && EndingsUnseen(w) && Plain(w, Normalise(text)) && !w.manual(Normalise(text))
    ensures var once := Pass(w, g, text).text;
      exists a, mid, z :: Ready(w, g, Pass(w, g, once).text, a, mid, z)
  {
    NoBlockPass(w, g, text);
    var once, front := Pass(w, g, text).text, AppendFront(g, Normalise(text));
    NormaliseParts(w, front, g.mid, "\n");
    NoAngleIsPlain(w, "\n");
    NormaliseShows(w, front, g.mid, "\n");
    ToLfKeeps("\n");
    ToLfKeeps(Marked(w, g.mid));
    BlockPass(w, g, once, Normalise(front), ToLf(g.mid), "\n");
  }

  /** One block is found at one place. */
  lemma SameFront(w: Tools, v: string, a: string, mid: string, z: string, a': string, mid': string, z': string)
    requires SoundTools(w) && Shows(w, v, Block(a, mid, z)) && Shows(w, v, Block(a', mid', z'))
    ensures a == a'
  {
    OneBlock(w, a, mid, z);
    OneBlock(w, a', mid', z');
    assert v[..|a|] == a && v[..|a'|] == a';
  }

  /** Refused are exactly the texts whose marks do not come in one of each, or whose block has no version line. */
  lemma RefusedIff(w: Tools, g: Guide, text: string)
    requires SoundTools(w)
    ensures var u := Normalise(text); var range := ManagedRange(w, u);
      && (Pass(w, g, text).action.Fail? <==>
            Malformed(w, u) || (range.Some? && w.version(u[range.value.start..range.value.end]).None?))
      && (Pass(w, g, text).action.Fail? ==> Pass(w, g, text).text == text)
  {
    SameMarks(w, text);
  }

  /**
   * The modes that do not write. Over a text with a block of some version, not refused, diff-warn returns the
   * normalised text as a no-op and fail-build the same text as a failure, unless version, hash and front are all
   * current: then both keep it, whole lines. A manual edit is a block of this version under another hash that is
   * no rendering of ours.
   */
  lemma DriftModes(w: Tools, g: Guide, text: string, a: string, mid: string, z: string)
    requires SoundTools(w) && SoundGuide(w, g) && Shows(w, Normalise(text), Block(a, mid, z))
    requires w.version(Marked(w, mid)).Some?
    ensures var u, block, f := Normalise(text), Marked(w, mid), FrontOf(w, a, |a|, g.prefix);
      var current := w.version(block) == Some(g.version) && w.sha(block) == Some(g.sha)
        && (f.exact || (f.compatible && !f.outdated));
      var edited := w.version(block) == Some(g.version) && w.sha(block).Some? && w.sha(block) != Some(g.sha)
        && !w.alternate(block);
      var warned := Rewrite(w, text, Canonical(w, g), g.version, g.sha, DiffWarn);
      var failed := Rewrite(w, text, Canonical(w, g), g.version, g.sha, FailBuild);
      && warned.action == NoOp && (failed.action == if current then NoOp else Fail)
      && warned.text == failed.text == (if current && u[|u| - 1] != '\n' then u + "\n" else u)
      && (warned.manualEdit <==> edited && !current) && (failed.manualEdit <==> edited && !current)
      && (Pass(w, g, text).manualEdit <==> edited && !current)
  {
    SameMarks(w, text);
    OneBlock(w, a, mid, z);
    CanonicalParts(w, g);
    StartsWith(a, Marked(w, mid), z);
    FrontIsOfFront(w, Normalise(text), a, g.prefix);
    var range := Range(|a|, |a| + |Marked(w, mid)|);
    BlockByMode(w, text, Canonical(w, g), g.version, g.sha, DiffWarn, range, Marked(w, mid), FrontOf(w, a, |a|, g.prefix));
    BlockByMode(w, text, Canonical(w, g), g.version, g.sha, FailBuild, range, Marked(w, mid), FrontOf(w, a, |a|, g.prefix));
    BlockByMode(w, text, Canonical(w, g), g.version, g.sha, AutoRewrite, range, Marked(w, mid), FrontOf(w, a, |a|, g.prefix));
  }

  lemma BlockByMode(w: Tools, text: string, canonical: string, version: string, sha: string, mode: Mode, range: Range, block: string,
                    f: Front)
    requires !Malformed(w, ToLf(text)) && !Malformed(w, Normalise(text)) && ManagedRange(w, Normalise(text)) == Some(range)
    requires block == Normalise(text)[range.start..range.end] && w.version(block).Some?
    requires f == FrontOf(w, Normalise(text), range.start, PrefixOf(w, canonical))
    ensures var u, r := Normalise(text), Rewrite(w, text, canonical, version, sha, mode);
      if w.version(block) == Some(version) && w.sha(block) == Some(sha) && (f.exact || (f.compatible && !f.outdated))
      then r == Result(EnsureNewline(u), NoOp, false)
      else
        && (r.manualEdit <==>
              w.version(block) == Some(version) && w.sha(block).Some? && w.sha(block) != Some(sha) && !w.alternate(block))
        && (mode.DiffWarn? ==> r.text == u && r.action == NoOp)
        && (mode.FailBuild? ==> r.text == u && r.action == Fail)
        && (mode.AutoRewrite? ==> r.text == Replaced(w, u, range, canonical) && r.action == ReplaceBlock)
  {
  }

  /** A text that is refused or shows no block is treated alike in every mode. */
  lemma WithoutBlock(w: Tools, g: Guide, text: string, mode: Mode)
    requires SoundTools(w)
    ensures var u, r := Normalise(text), Rewrite(w, text, Canonical(w, g), g.version, g.sha, mode);
      var range := ManagedRange(w, u);
      if Malformed(w, u) || (range.Some? && w.version(u[range.value.start..range.value.end]).None?)
      then r == Result(text, Fail, false)
      else range.None? ==>
        r == if w.manual(u) then Result(u, LeaveManual, false) else Result(Appended(w, u, Canonical(w, g)), AppendBlock, false)
  {
    SameMarks(w, text);
  }

  /**
   * The front `a` in full: exact if it ends with our frontmatter; compatible if it opens with dashes and closes
   * them; outdated if it is one frontmatter with nothing behind it, marked as ours, and not exact.
   */
  lemma FrontReads(w: Tools, prefix: string, a: string)
    ensures var f := FrontOf(w, a, |a|, prefix);
      && (f.exact <==> exists i :: 0 <= i <= |a| && a[i..] == prefix)
      && (f.compatible <==> "---\n" <= prefix && "---\n" <= a && exists c :: Closes(a, c))
      && (f.outdated <==>
            && f.compatible && !f.exact && w.ours(a)
            && forall c, i :: Closes(a, c) && (forall b :: Closes(a, b) ==> c <= b) && c + 5 <= i < |a| ==> IsSpace(a[i]))
  {
    var close := Find(a, YAML_CLOSE, 4);
    ExactReads(a, prefix);
    ClosesIs(a);
    assert a[..|a|] == a;
    if IsYaml(prefix) && IsYaml(a) && close.Some? {
      var c := close.value;
      assert Closes(a, c) && forall b :: Closes(a, b) ==> c <= b;
      assert a[c + 5..|a|] == a[c + 5..];
      BlankReads(a, c + 5);
    }
  }

  /** A line of dashes at `c`, behind the opening one. */
  predicate Closes(a: string, c: int) {
    4 <= c && c + 5 <= |a| && a[c..c + 5] == "\n---\n"
  }

  lemma ExactReads(a: string, prefix: string)
    ensures (|prefix| <= |a| && a[|a| - |prefix|..|a|] == prefix) <==> exists i :: 0 <= i <= |a| && a[i..] == prefix
  {
    if |prefix| <= |a| && a[|a| - |prefix|..|a|] == prefix {
      assert a[|a| - |prefix|..] == a[|a| - |prefix|..|a|];
    }
    if i :| 0 <= i <= |a| && a[i..] == prefix {
      assert i == |a| - |prefix| && a[i..] == a[i..|a|];
    }
  }

  lemma ClosesIs(a: string)
    ensures forall c: nat :: c >= 4 ==> (OccursAt(a, YAML_CLOSE, c) <==> Closes(a, c))
  {
    assert YAML_CLOSE == "\n---\n" && |YAML_CLOSE| == 5;
  }

  lemma BlankReads(a: string, lo: nat)
    requires lo <= |a|
    ensures IsBlank(a[lo..]) <==> forall i :: lo <= i < |a| ==> IsSpace(a[i])
  {
    forall i | lo <= i < |a|
      ensures IsBlank(a[lo..]) ==> IsSpace(a[i])
    {
      if IsBlank(a[lo..]) {
        BlankIsSpaces(a[lo..], i - lo);
      }
    }
    if forall i :: lo <= i < |a| ==> IsSpace(a[i]) {
      SpacesAreBlank(a[lo..]);
    }
  }

  /** Where the first pass does not leave order, it appended a block behind frontmatter of the user's own. */
  lemma OutOfOrder(w: Tools, g: Guide, text: string, sight: Sight)
    requires SoundTools(w) && SoundGuide(w, g) && Shows(w, Normalise(text), sight) && !sight.Crossed?
    requires !LeavesOrder(w, g, Normalise(text))
    ensures Plain(w, Normalise(text)) && !w.manual(Normalise(text))
  {
    SightsApart(w, Normalise(text), sight);
  }

  /**
   * Whatever the text: a pass that does not refuse it settles it if and only if what it leaves has no
   * carriage return before a line feed and no byte-order mark in front, and the block was not appended
   * behind a front out of order. A text whose marks are crossed gets a block appended, and is refused
   * from then on.
   */
  lemma RewriteSettles(w: Tools, g: Guide, text: string)
    requires SoundTools(w) && SoundGuide(w, g) && EndingsUnseen(w) && !Pass(w, g, text).action.Fail?
    ensures var once, u := Pass(w, g, text).text, Normalise(text);
      if Crosses(w, u) && !w.manual(u)
      then Pass(w, g, text).action == AppendBlock && Pass(w, g, once) == Result(once, Fail, false)
      else Pass(w, g, once).text == once <==> Unix(once) && LeavesOrder(w, g, u)
    ensures var u := Normalise(text); g.prefix == "" || IsBlank(u) || !IsYaml(u) ==> LeavesOrder(w, g, u)
  {
    var once, u := Pass(w, g, text).text, Normalise(text);
    if g.prefix == "" || IsBlank(u) || !IsYaml(u) {
      AppendFrontIsInOrder(w, g, u);
    }
    RefusedIff(w, g, text);
    var sight := EverySight(w, u);
    SightsApart(w, u, sight);
    if sight.Crossed? && !w.manual(u) {
      CrossedPass(w, g, text, sight.a, sight.mid, sight.z);
    } else if LeavesOrder(w, g, u) {
      OnceIsLasting(w, g, text, sight);
      LastingIsSettledIff(w, g, once);
    } else {
      OutOfOrder(w, g, text, sight);
      AppendIsNotSettled(w, g, text);
    }
  }

  lemma AppendIsNotSettled(w: Tools, g: Guide, text: string)
    requires SoundTools(w) && SoundGuide(w, g) && EndingsUnseen(w) && Plain(w, Normalise(text)) && !w.manual(Normalise(text))
    requires !FrontInOrder(w, g, AppendFront(g, Normalise(text)))
    ensures var once := Pass(w, g, text).text; Pass(w, g, once).text != once
  {
    var once := Pass(w, g, text).text;
    NoBlockPass(w, g, text);
    TwiceIsLasting(w, g, text);
    if Pass(w, g, once).text == once {
      var a, mid, z :| Ready(w, g, once, a, mid, z);
      SameFront(w, once, a, mid, z, AppendFront(g, Normalise(text)), g.mid, "\n");
    }
  }

  /**
   * And how many passes it takes: from the first text whose front is in order, which is the first
   * pass's or the second's, one for each carriage return in the longest run before a line feed, or for
   * each byte-order mark in front, whichever are more; none behind crossed marks, which are refused.
   */
  lemma PassesToSettle(w: Tools, g: Guide, text: string, k: nat)
    requires SoundTools(w) && SoundGuide(w, g) && EndingsUnseen(w) && !Pass(w, g, text).action.Fail?
    ensures var once, u := Pass(w, g, text).text, Normalise(text);
      var v := if LeavesOrder(w, g, u) then once else Pass(w, g, once).text;
      if Crosses(w, u) && !w.manual(u) then Passes(w, g, once, k) == once
      else Passes(w, g, v, k + 1) == Passes(w, g, v, k) <==> k >= Depth(v)
  {
    var once, u := Pass(w, g, text).text, Normalise(text);
    RefusedIff(w, g, text);
    var sight := EverySight(w, u);
    SightsApart(w, u, sight);
    if sight.Crossed? && !w.manual(u) {
      CrossedPass(w, g, text, sight.a, sight.mid, sight.z);
      RefusedForEver(w, g, once, k);
    } else if LeavesOrder(w, g, u) {
      OnceIsLasting(w, g, text, sight);
      LastingSettles(w, g, once, k, k + 1);
    } else {
      OutOfOrder(w, g, text, sight);
      TwiceIsLasting(w, g, text);
      LastingSettles(w, g, Pass(w, g, once).text, k, k + 1);
    }
  }

  lemma {:induction false} RefusedForEver(w: Tools, g: Guide, v: string, k: nat)
    requires Pass(w, g, v).text == v
    ensures Passes(w, g, v, k) == v
    decreases k
  {
    if k > 0 {
      RefusedForEver(w, g, v, k - 1);
    }
  }

  /** The end mark before the start mark: the input on which a pass appends a second block. */
  lemma EndBeforeStartIsAppended(w: Tools, g: Guide)
    requires SoundTools(w) && SoundGuide(w, g) && !w.manual(w.end + w.start)
    ensures var text := w.end + w.start; var r := Pass(w, g, text);
      && !Malformed(w, text) && r.action == AppendBlock && Count(r.text, w.start, 0) >= 2
      && Pass(w, g, r.text) == Result(r.text, Fail, false)
  {
    var text := w.end + w.start;
    EndBeforeStart(w);
    CrossedIsNoBlock(w, text, "", "", "");
    CrossedAppends(w, g, text, "", "", "");
    AppendedCrossed(w, g, text, "", "", "", Pass(w, g, text).text);
  }

  lemma EndBeforeStart(w: Tools)
    requires SoundTools(w)
    ensures var text := w.end + w.start; Normalise(text) == text && Shows(w, text, Crossed("", "", ""))
  {
    NoAngleIsPlain(w, "");
    assert w.end + w.start == "" + Marked(Swapped(w), "") + "";
    ToLfKeeps(w.end);
    ToLfKeeps(w.start);
    ToLfParts(w.end, w.start);
  }

  lemma DepthOfBlock(w: Tools, a: string, mid: string, z: string)
    requires SoundTools(w)
    ensures Depth(a + Marked(w, mid) + z) == Max(Depth(a), Max(LongestRun(Marked(w, mid)), LongestRun(z)))
  {
    MarkedEnds(w, mid);
    LongestRunOfParts(a + Marked(w, mid), z);
    LongestRunOfParts(a, Marked(w, mid));
    BomsInFront(a, Marked(w, mid) + z);
    assert a + Marked(w, mid) + z == a + (Marked(w, mid) + z);
  }

  lemma {:induction false} BomsInFront(a: string, b: string)
    requires b != "" && b[0] != BOM
    ensures Boms(a + b) == Boms(a)
  {
    if a == "" {
      assert a + b == b;
    } else {
      assert (a + b)[1..] == a[1..] + b;
      BomsInFront(a[1..], b);
    }
  }

  /**
   * What depth a pass leaves, from the text before it: that of the user's text without trailing blanks
   * behind an appended block, that of the text itself, or that of the parts around a replaced block.
   */
  lemma DepthAfterPass(w: Tools, g: Guide, text: string, sight: Sight)
    requires SoundTools(w) && SoundGuide(w, g) && Shows(w, Normalise(text), sight) && !Pass(w, g, text).action.Fail?
    ensures var u, r := Normalise(text), Pass(w, g, text);
      && (r.action == AppendBlock ==> Depth(r.text) == Depth(AppendFront(g, u)))
      && (r.action == AppendBlock && g.prefix == "" ==> Depth(r.text) == Depth(TrimEnd(u)))
      && (r.action == LeaveManual ==> r.text == u)
      && (r.action == NoOp ==> r.text == EnsureNewline(u))
      && (r.action == ReplaceBlock ==>
            sight.Block?
            && Depth(r.text)
               == Max(Depth(NewFront(g, FrontOf(w, sight.a, |sight.a|, g.prefix), sight.a)), LongestRun(NewRest(sight.z))))
  {
    match sight
    case Block(a, mid, z) => DepthAfterBlock(w, g, text, a, mid, z);
    case Nothing =>
      NoBlockPass(w, g, text);
      DepthAfterAppend(w, g, text);
    case Crossed(a, mid, z) =>
      CrossedPass(w, g, text, a, mid, z);
      DepthAfterAppend(w, g, text);
  }

  lemma DepthAfterBlock(w: Tools, g: Guide, text: string, a: string, mid: string, z: string)
    requires SoundTools(w) && SoundGuide(w, g) && Shows(w, Normalise(text), Block(a, mid, z)) && !Pass(w, g, text).action.Fail?
    ensures var r := Pass(w, g, text);
      if r.action == NoOp then r.text == EnsureNewline(Normalise(text))
      else
        r.action == ReplaceBlock
        && Depth(r.text) == Max(Depth(NewFront(g, FrontOf(w, a, |a|, g.prefix), a)), LongestRun(NewRest(z)))
  {
    NoCrLfIff(BlockText(w, g));
    BlockPass(w, g, text, a, mid, z);
    DepthOfBlock(w, NewFront(g, FrontOf(w, a, |a|, g.prefix), a), g.mid, NewRest(z));
  }

  lemma DepthAfterAppend(w: Tools, g: Guide, text: string)
    requires SoundTools(w) && SoundGuide(w, g)
    requires var u, r := Normalise(text), Pass(w, g, text);
      r == Result(u, LeaveManual, false) || r == Result(AppendFront(g, u) + BlockText(w, g) + "\n", AppendBlock, false)
    ensures var u, r := Normalise(text), Pass(w, g, text);
      if r.action == LeaveManual then r.text == u
      else
        && r.action == AppendBlock && Depth(r.text) == Depth(AppendFront(g, u))
        && (g.prefix == "" ==> Depth(AppendFront(g, u)) == Depth(TrimEnd(u)))
  {
    var u := Normalise(text);
    NoCrLfIff(BlockText(w, g));
    NoCrLfIff("\n");
    DepthOfBlock(w, AppendFront(g, u), g.mid, "\n");
    DepthOfTrimmed(u);
    assert TrimEnd(u) + "\n\n" + "" == TrimEnd(u) + "\n\n";
    assert "" + "" == "";
  }

  lemma DepthOfTrimmed(u: string)
    ensures Depth(TrimEnd(u) + "\n\n") == Depth(TrimEnd(u))
  {
    LongestRunOfParts(TrimEnd(u), "\n\n");
    NoCrLfIff("\n\n");
    BomsInFront(TrimEnd(u), "\n\n");
  }

  /**
   * From a text with one marked block, one pass is enough exactly when the text it keeps, or the parts it
   * keeps around a replaced block, have no carriage return before a line feed and no byte-order mark in front.
   */
  lemma BlockSettlesInOne(w: Tools, g: Guide, text: string, a: string, mid: string, z: string)
    requires SoundTools(w) && SoundGuide(w, g) && EndingsUnseen(w) && Shows(w, Normalise(text), Block(a, mid, z))
    requires w.version(Marked(w, mid)).Some?
    ensures var r, front := Pass(w, g, text), NewFront(g, FrontOf(w, a, |a|, g.prefix), a);
      Pass(w, g, r.text).text == r.text <==>
        if r.action == NoOp then Unix(EnsureNewline(Normalise(text))) else Unix(front) && NoCrLf(NewRest(z))
  {
    var front := NewFront(g, FrontOf(w, a, |a|, g.prefix), a);
    BlockPass(w, g, text, a, mid, z);
    OneBlock(w, a, mid, z);
    RewriteSettles(w, g, text);
    DepthAfterBlock(w, g, text, a, mid, z);
    NormaliseTakesOne(Pass(w, g, text).text);
    NormaliseTakesOne(front);
    NoCrLfIff(NewRest(z));
  }

  /**
   * From a text without one, a single pass is enough exactly when the user's text without its trailing
   * blanks, with the front put before it, has none of these, and no frontmatter of the user's own
   * stands in the way of the guide's.
   */
  lemma AppendSettlesInOne(w: Tools, g: Guide, text: string)
    requires SoundTools(w) && SoundGuide(w, g) && EndingsUnseen(w) && Plain(w, Normalise(text)) && !w.manual(Normalise(text))
    ensures var once, u := Pass(w, g, text).text, Normalise(text);
      && (Pass(w, g, once).text == once <==> Unix(AppendFront(g, u)) && FrontInOrder(w, g, AppendFront(g, u)))
      && (g.prefix == "" ==> (Pass(w, g, once).text == once <==> Unix(TrimEnd(u))))
  {
    var u := Normalise(text);
    NoBlockPass(w, g, text);
    SightsApart(w, u, Nothing);
    RewriteSettles(w, g, text);
    DepthAfterAppend(w, g, text);
    NormaliseTakesOne(Pass(w, g, text).text);
    NormaliseTakesOne(AppendFront(g, u));
    NormaliseTakesOne(TrimEnd(u));
  }

  /** A current text is left exactly as it is. */
  lemma CurrentStays(w: Tools, g: Guide, v: string, a: string, mid: string, z: string)
    requires SoundTools(w) && SoundGuide(w, g) && Ready(w, g, v, a, mid, z) && Unix(v)
    ensures Pass(w, g, v) == Result(v, NoOp, false)
  {
    NormaliseKeeps(v);
    ReadyIsKept(w, g, v, v, a, mid, z);
  }

  // ----- removing what was appended

  lemma TrimEndBack(t: string, blanks: string)
    requires TrimEnd(t) == t && forall i :: 0 <= i < |blanks| ==> IsSpace(blanks[i])
    ensures TrimEnd(t + blanks) == t
    decreases |blanks|
  {
    if blanks == "" {
      assert t + blanks == t;
    } else {
      var init := blanks[..|blanks| - 1];
      assert (t + blanks)[..|t + blanks| - 1] == t + init;
      TrimEndBack(t, init);
    }
  }

  /** What is left once an appended block is taken out: frontmatter of ours, and the user's text to its last word. */
  function Remains(g: Guide, u: string): string {
    if IsBlank(u) then TrimEnd(g.prefix)
    else (if IsYaml(g.prefix) && !IsYaml(u) then g.prefix else "") + ToLf(TrimEnd(u))
  }

  lemma RemainsInFront(w: Tools, g: Guide, u: string)
    requires SoundTools(w) && SoundGuide(w, g)
    ensures TrimEnd(ToLf(AppendFront(g, u))) == Remains(g, u) == TrimEnd(Remains(g, u))
  {
    GuideSeams(w, g, "");
    if IsBlank(u) {
      assert AppendFront(g, u) == "" + g.prefix == g.prefix;
      ToLfKeeps(g.prefix);
      TrimEndTwice(g.prefix);
    } else {
      var own := if IsYaml(g.prefix) && !IsYaml(u) then g.prefix else "";
      assert AppendFront(g, u) == own + TrimEnd(u) + "\n\n" by {
        assert TrimEnd(u) + "\n\n" + "" == "" + TrimEnd(u) + "\n\n";
        assert "" + TrimEnd(u) == TrimEnd(u);
      }
      TrimmedToLf(own, TrimEnd(u), "\n\n");
    }
  }

  lemma TrimmedToLf(own: string, t: string, blanks: string)
    requires NoCrLf(own) && (own == "" || own[|own| - 1] == '\n') && t != "" && !IsSpace(t[|t| - 1])
    requires NoCrLf(blanks) && forall i :: 0 <= i < |blanks| ==> IsSpace(blanks[i])
    ensures TrimEnd(ToLf(own + t + blanks)) == own + ToLf(t) == TrimEnd(own + ToLf(t))
  {
    assert t[|t| - 1] != '\r' && (own + t)[|own + t| - 1] == t[|t| - 1];
    ToLfParts(own + t, blanks);
    ToLfParts(own, t);
    ToLfKeeps(blanks);
    ToLfKeeps(own);
    ToLfEnds(t);
    EndsAs(own, ToLf(t));
    TrimEndBack(own + ToLf(t), blanks);
  }

  lemma EndsAs(x: string, y: string)
    requires y != "" && !IsSpace(y[|y| - 1])
    ensures TrimEnd(x + y) == x + y
  {
  }

  lemma {:induction false} TrimEndTwice(u: string)
    ensures TrimEnd(TrimEnd(u)) == TrimEnd(u)
  {
    if u != "" && IsSpace(u[|u| - 1]) {
      TrimEndTwice(u[..|u| - 1]);
    }
  }

  /**
   * Taking out a block that was appended gives back the user's text, up to its trailing blanks and one
   * more normalisation of its line ends: exactly the text, if no carriage return is left in it before a
   * line feed. Frontmatter of ours stays.
   */
  lemma RemoveUndoesAppend(w: Tools, g: Guide, text: string)
    requires SoundTools(w) && SoundGuide(w, g) && Plain(w, Normalise(text)) && !w.manual(Normalise(text))
    ensures var u := Normalise(text); var removed := RemoveBlock(w, Pass(w, g, text).text);
      && Pass(w, g, text).action == AppendBlock
      && removed == (if Remains(g, u) == "" then "" else Remains(g, u) + "\n", true)
      && (g.prefix == "" && !IsBlank(u) ==> (removed.0 == TrimEnd(u) + "\n" <==> NoCrLf(TrimEnd(u))))
      && (g.prefix == "" && IsBlank(u) ==> removed.0 == "")
  {
    NoBlockPass(w, g, text);
    var u, once := Normalise(text), Pass(w, g, text).text;
    AppendedRemoved(w, g, once, u, AppendFront(g, u));
    ToLfKeepsIff(TrimEnd(u));
    RemainsWhole(g, u);
  }

  lemma RemainsWhole(g: Guide, u: string)
    ensures g.prefix == "" && !IsBlank(u) ==> Remains(g, u) == ToLf(TrimEnd(u)) != ""
    ensures g.prefix == "" && IsBlank(u) ==> Remains(g, u) == ""
  {
    if !IsBlank(u) {
      ToLfEnds(TrimEnd(u));
      assert "" + ToLf(TrimEnd(u)) == ToLf(TrimEnd(u));
    }
  }

  lemma AppendedInLf(w: Tools, g: Guide, once: string, u: string, front: string, lf: string)
    requires SoundTools(w) && SoundGuide(w, g) && Plain(w, u) && front == AppendFront(g, u) && lf == ToLf(front)
    requires once == front + BlockText(w, g) + "\n"
    ensures ToLf(once) == lf + BlockText(w, g) + "\n"
    ensures ManagedRange(w, ToLf(once)) == Some(Range(|lf|, |lf| + |BlockText(w, g)|))
  {
    AppendedToLf(w, g, front);
    AppendFrontIsPlain(w, g, u);
    ToLfIsPlain(w, front);
    AppendedIsFound(w, g, lf, ToLf(once));
  }

  lemma TrimmedLf(w: Tools, g: Guide, u: string, front: string, lf: string, remains: string)
    requires SoundTools(w) && SoundGuide(w, g) && front == AppendFront(g, u) && lf == ToLf(front) && remains == Remains(g, u)
    ensures TrimEnd(lf) == remains == TrimEnd(remains)
  {
    RemainsInFront(w, g, u);
  }

  lemma AppendedRemoved(w: Tools, g: Guide, once: string, u: string, front: string)
    requires SoundTools(w) && SoundGuide(w, g) && Plain(w, u) && front == AppendFront(g, u)
    requires once == front + BlockText(w, g) + "\n"
    ensures RemoveBlock(w, once) == (if Remains(g, u) == "" then "" else Remains(g, u) + "\n", true)
  {
    var lf, remains := ToLf(front), Remains(g, u);
    AppendedInLf(w, g, once, u, front, lf);
    TrimmedLf(w, g, u, front, lf, remains);
    RemovedFrom(w, g, once, lf, remains);
  }

  lemma ToLfKeepsIff(t: string)
    ensures ToLf(t) + "\n" == t + "\n" <==> NoCrLf(t)
  {
    NoCrLfIff(t);
    LongestRunOfLf(t);
    SameLine(ToLf(t), t);
    if NoCrLf(t) {
      ToLfKeeps(t);
    }
  }

  lemma SameLine(x: string, y: string)
    ensures x + "\n" == y + "\n" <==> x == y
  {
    assert (x + "\n")[..|x|] == x && (y + "\n")[..|y|] == y;
  }

  lemma AppendedIsFound(w: Tools, g: Guide, front: string, v: string)
    requires SoundTools(w) && SoundGuide(w, g) && Plain(w, front) && v == front + BlockText(w, g) + "\n"
    ensures ManagedRange(w, v) == Some(Range(|front|, |front| + |BlockText(w, g)|))
  {
    NoAngleIsPlain(w, "\n");
    OneBlock(w, front, g.mid, "\n");
  }

  lemma AppendedToLf(w: Tools, g: Guide, front: string)
    requires SoundTools(w) && SoundGuide(w, g)
    ensures ToLf(front + BlockText(w, g) + "\n") == ToLf(front) + BlockText(w, g) + "\n"
  {
    MarkedEnds(w, g.mid);
    ToLfParts(front + BlockText(w, g), "\n");
    ToLfParts(front, BlockText(w, g));
    ToLfKeeps(BlockText(w, g));
    ToLfKeeps("\n");
  }

  lemma RemovedFrom(w: Tools, g: Guide, text: string, front: string, remains: string)
    requires ToLf(text) == front + BlockText(w, g) + "\n" && TrimEnd(front) == remains == TrimEnd(remains)
    requires ManagedRange(w, ToLf(text)) == Some(Range(|front|, |front| + |BlockText(w, g)|))
    ensures RemoveBlock(w, text) == (if remains == "" then "" else remains + "\n", true)
  {
    var v := ToLf(text);
    assert v[..|front|] == front && v[|front| + |BlockText(w, g)|..] == "\n";
    assert TrimStart("\n") == "";
    RejoinedReads(remains, "");
  }

  /**
   * Removing a block keeps the text before and after it but for the blanks around it and at the end; where both
   * remain, an empty line parts them; where something remains, it ends with a line feed.
   */
  lemma RemoveKeepsOutside(w: Tools, text: string, a: string, mid: string, z: string)
    requires SoundTools(w) && Shows(w, ToLf(text), Block(a, mid, z))
    ensures var before, after := TrimEnd(a), TrimEnd(TrimStart(z));
      var (removed, changed) := RemoveBlock(w, text);
      && changed
      && removed == if before == "" && after == "" then ""
                    else if after == "" then before + "\n"
                    else if before == "" then after + "\n"
                    else before + "\n\n" + after + "\n"
  {
    var u, before, after := ToLf(text), TrimEnd(a), TrimStart(z);
    OneBlock(w, a, mid, z);
    StartsWith(a, Marked(w, mid), z);
    assert u[|a| + |Marked(w, mid)|..] == z;
    assert RemoveBlock(w, text) == (Rejoined(before, after), true);
    TrimEndTwice(a);
    TrimStartReads(z);
    RejoinedReads(before, after);
  }

  lemma RejoinedReads(before: string, after: string)
    requires TrimEnd(before) == before && (after != "" ==> !IsSpace(after[0]))
    ensures var rest := TrimEnd(after);
      Rejoined(before, after) == if before == "" && rest == "" then ""
                                 else if rest == "" then before + "\n"
                                 else if before == "" then rest + "\n"
                                 else before + "\n\n" + rest + "\n"
  {
    if after != "" {
      TrimEndOfParts(before + "\n\n", after);
      assert "" + after == after;
    } else {
      assert before + after == before;
    }
  }

  /** Only blanks are trimmed, and all at that end. */
  lemma {:induction false} TrimEndReads(text: string)
    ensures TrimEnd(text) <= text && forall i :: |TrimEnd(text)| <= i < |text| ==> IsSpace(text[i])
    ensures TrimEnd(text) != "" ==> !IsSpace(TrimEnd(text)[|TrimEnd(text)| - 1])
  {
    if text != "" && IsSpace(text[|text| - 1]) {
      TrimEndReads(text[..|text| - 1]);
    }
  }

  lemma {:induction false} TrimStartReads(text: string)
    ensures |TrimStart(text)| <= |text| && text[|text| - |TrimStart(text)|..] == TrimStart(text)
    ensures forall i :: 0 <= i < |text| - |TrimStart(text)| ==> IsSpace(text[i])
    ensures TrimStart(text) != "" ==> !IsSpace(TrimStart(text)[0])
  {
    if text != "" && IsSpace(text[0]) {
      TrimStartReads(text[1..]);
      assert forall i :: 1 <= i < |text| ==> text[i] == text[1..][i - 1];
    }
  }

  /** The blanks at the end of `x + y` are those of `y`, which is not blank. */
  lemma TrimEndOfParts(x: string, y: string)
    requires y != "" && !IsSpace(y[0])
    ensures TrimEnd(x + y) == x + TrimEnd(y) && TrimEnd(y) != ""
  {
    var t := TrimEnd(y);
    TrimEndReads(y);
    var blanks := y[|t|..];
    assert y == t + blanks && x + y == x + t + blanks;
    assert TrimEnd(x + t) == x + t;
    TrimEndBack(x + t, blanks);
  }

  // ----- an append that is not settled

  /** A piece of a line. */
  predicate Word(s: string) {
    s != "" && '<' !in s && '\r' !in s && '\n' !in s && s[0] != BOM && !IsSpace(s[|s| - 1])
  }

  /** Two lines with a carriage return before their CRLF take a pass more: the append is not yet settled. */
  lemma CarriageReturnsTakeOneMorePass(w: Tools, g: Guide, h: string, t: string)
    requires SoundTools(w) && SoundGuide(w, g) && g.prefix == "" && Word(h) && Word(t) && !w.manual(h + ("\r\n" + t))
    ensures var once := Pass(w, g, h + "\r" + ("\r\n" + t)).text; Pass(w, g, once).text != once
  {
    var text, u := h + "\r" + ("\r\n" + t), h + ("\r\n" + t);
    assert text[0] == h[0];
    LinesNormalised(h + "\r", "\r\n" + t, t);
    assert h + "\r" + ("\n" + t) == u;
    AppendNotSettled(w, g, text, u, |h|);
  }

  lemma AppendNotSettled(w: Tools, g: Guide, text: string, u: string, i: nat)
    requires SoundTools(w) && SoundGuide(w, g) && g.prefix == "" && u == Normalise(text) && '<' !in u && !w.manual(u)
    requires i + 1 < |u| && u[i] == '\r' && u[i + 1] == '\n' && !IsSpace(u[|u| - 1])
    ensures var once := Pass(w, g, text).text; Pass(w, g, once).text != once
  {
    NoAngleIsPlain(w, u);
    NoBlockPass(w, g, text);
    AppendThenNormalise(w, g, u, Pass(w, g, text).text);
    CrLfStays(g, u, i, Pass(w, g, text).text, BlockText(w, g));
  }

  lemma LinesNormalised(x: string, y: string, t: string)
    requires NoCrLf(x) && NoCrLf(t) && |y| == |t| + 2 && y[0] == '\r' && y[1] == '\n' && y[2..] == t
    ensures ToLf(x + y) == x + ("\n" + t)
  {
    ToLfParts(x, y);
    ToLfKeeps(x);
    ToLfKeeps(t);
  }

  lemma CrLfStays(g: Guide, u: string, i: nat, once: string, block: string)
    requires g.prefix == "" && i + 1 < |u| && u[i] == '\r' && u[i + 1] == '\n' && !IsSpace(u[|u| - 1])
    requires once == AppendFront(g, u) + block + "\n"
    ensures Normalise(once) != once
  {
    assert TrimEnd(u) == u && once[i] == '\r' && once[i + 1] == '\n';
    NormaliseTakesOne(once);
  }

  /** After an append of a guide without frontmatter, the next pass only normalises. */
  lemma AppendThenNormalise(w: Tools, g: Guide, u: string, once: string)
    requires SoundTools(w) && SoundGuide(w, g) && g.prefix == "" && Plain(w, u)
    requires once == AppendFront(g, u) + BlockText(w, g) + "\n"
    ensures Pass(w, g, once).text == Normalise(once)
  {
    var front := AppendFront(g, u);
    AppendFrontIsPlain(w, g, u);
    NoAngleIsPlain(w, "\n");
    NormaliseParts(w, front, g.mid, "\n");
    NormaliseShows(w, front, g.mid, "\n");
    ToLfKeeps("\n");
    ToLfKeeps(BlockText(w, g));
    assert once[|once| - 1] == '\n';
    NormaliseEndsLine(once);
    var a := Normalise(front);
    NoPrefixIsExact(w, a);
    ReadyIsKept(w, g, once, Normalise(once), a, ToLf(g.mid), "\n");
  }

  lemma NoPrefixIsExact(w: Tools, a: string)
    ensures FrontOf(w, a, |a|, "").exact
  {
    assert a[|a|..|a|] == "";
  }
}
