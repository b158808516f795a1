/**
 * Repeated compiler diagnostics: identical messages with identical details are shown once, with how
 * often and where they occurred.
 */
module TscBlocks {
  import opened Wrappers
  import Sorting

  const MAX_LINE_CHARS := 400
  const LOCATIONS := "  locations: "

  datatype Location = Location(site: string, message: string)

  /** The line tests: a diagnostic's first line, a blank line, an indented one, and a located diagnostic's parts. */
  datatype Tests = Tests(
    header: string -> bool,
    blank: string -> bool,
    indented: string -> bool,
    locate: string -> Option<Location>,
    decimal: nat -> string)

  /** Lines `start` up to, not including, `end`. */
  datatype Block = Block(start: nat, end: nat)

  /** A diagnostic's message and details; lines hold no line breaks, so joining them loses nothing. */
  type Key = seq<string>

  // ----- finding the blocks

  ghost predicate AllContinue(t: Tests, lines: seq<string>, lo: nat, hi: nat) {
    hi <= |lines| && forall i :: lo <= i < hi ==> !t.header(lines[i]) && (t.blank(lines[i]) || t.indented(lines[i]))
  }

  /** A header with the lines that continue it, without trailing blank ones; as long as possible. */
  ghost predicate IsBlock(t: Tests, lines: seq<string>, b: Block) {
    && b.start < b.end <= |lines| && t.header(lines[b.start])
    && AllContinue(t, lines, b.start + 1, b.end)
    && (b.end > b.start + 1 ==> !t.blank(lines[b.end - 1]))
    && forall e :: b.end < e && AllContinue(t, lines, b.end, e) ==> t.blank(lines[e - 1])
  }

  predicate Within(b: Block, i: nat) {
    b.start <= i < b.end
  }

  ghost predicate InOrder(blocks: seq<Block>) {
    forall j, k :: 0 <= j < k < |blocks| ==> blocks[j].end <= blocks[k].start
  }

  /** All blocks, in order: every header opens one. */
  ghost predicate AreBlocks(t: Tests, lines: seq<string>, blocks: seq<Block>) {
    && InOrder(blocks)
    && (forall k :: 0 <= k < |blocks| ==> IsBlock(t, lines, blocks[k]))
    && forall i :: 0 <= i < |lines| && t.header(lines[i]) ==> exists k :: 0 <= k < |blocks| && blocks[k].start == i
  }

  method BlockAt(t: Tests, lines: seq<string>, i: nat) returns (b: Block)
    requires i < |lines| && t.header(lines[i])
    ensures b.start == i && IsBlock(t, lines, b)
  {
    var end := i + 1;
    while end < |lines| && !t.header(lines[end]) && (t.blank(lines[end]) || t.indented(lines[end]))
      invariant i < end <= |lines| && AllContinue(t, lines, i + 1, end)
    {
      end := end + 1;
    }
    ghost var stop := end;
    while end > i + 1 && t.blank(lines[end - 1])
      invariant i < end <= stop && AllContinue(t, lines, i + 1, end)
      invariant forall j :: end <= j < stop ==> t.blank(lines[j])
    {
      end := end - 1;
    }
    b := Block(i, end);
    assert forall e :: stop < e <= |lines| ==> !AllContinue(t, lines, end, e);
  }

  method FindBlocks(t: Tests, lines: seq<string>) returns (blocks: seq<Block>)
    ensures AreBlocks(t, lines, blocks)
  {
    blocks := [];
    var i := 0;
    while i < |lines|
      invariant i <= |lines| && InOrder(blocks)
      invariant forall k :: 0 <= k < |blocks| ==> IsBlock(t, lines, blocks[k]) && blocks[k].end <= i
      invariant forall j :: 0 <= j < i && t.header(lines[j]) ==> exists k :: 0 <= k < |blocks| && blocks[k].start == j
    {
      if !t.header(lines[i]) {
        i := i + 1;
        continue;
      }
      var b := BlockAt(t, lines, i);
      ghost var before := blocks;
      blocks := blocks + [b];
      assert blocks[|before|].start == i;
      assert forall j :: i < j < b.end ==> !t.header(lines[j]);
      forall j | 0 <= j < i && t.header(lines[j])
        ensures exists k :: 0 <= k < |blocks| && blocks[k].start == j
      {
        var k :| 0 <= k < |before| && before[k].start == j;
        assert blocks[k].start == j;
      }
      i := b.end;
    }
  }

  // ----- keys, counts and sites

  function KeyOf(t: Tests, lines: seq<string>, b: Block): Key
    requires b.start < b.end <= |lines|
  {
    var first := t.locate(lines[b.start]);
    [if first.Some? then first.value.message else lines[b.start]] + lines[b.start + 1..b.end]
  }

  /** Two diagnostics are alike if their messages are, or their first lines where no location is found, and their details. */
  lemma KeysAgreeIff(t: Tests, lines: seq<string>, b: Block, c: Block)
    requires b.start < b.end <= |lines| && c.start < c.end <= |lines|
    ensures var atB, atC := t.locate(lines[b.start]), t.locate(lines[c.start]);
      KeyOf(t, lines, b) == KeyOf(t, lines, c) <==>
        && (if atB.Some? then atB.value.message else lines[b.start]) == (if atC.Some? then atC.value.message else lines[c.start])
        && lines[b.start + 1..b.end] == lines[c.start + 1..c.end]
  {
    var x, y := KeyOf(t, lines, b), KeyOf(t, lines, c);
    assert x[1..] == lines[b.start + 1..b.end] && y[1..] == lines[c.start + 1..c.end];
    assert x == [x[0]] + x[1..] && y == [y[0]] + y[1..];
  }

  ghost predicate InRange(lines: seq<string>, blocks: seq<Block>) {
    forall k :: 0 <= k < |blocks| ==> blocks[k].start < blocks[k].end <= |lines|
  }

  function KeysOf(t: Tests, lines: seq<string>, blocks: seq<Block>): (keys: seq<Key>)
    requires InRange(lines, blocks)
    ensures |keys| == |blocks| && forall k :: 0 <= k < |blocks| ==> keys[k] == KeyOf(t, lines, blocks[k])
  {
    seq(|blocks|, k requires 0 <= k < |blocks| => KeyOf(t, lines, blocks[k]))
  }

  function Occurrences<T(==)>(s: seq<T>, x: T): nat {
    if s == [] then 0 else Occurrences(s[..|s| - 1], x) + if s[|s| - 1] == x then 1 else 0
  }

  /** The elements of `s`, each at its first place only. */
  function Firsts<T(==)>(s: seq<T>): seq<T> {
    if s == [] then []
    else Firsts(s[..|s| - 1]) + if s[|s| - 1] in s[..|s| - 1] then [] else [s[|s| - 1]]
  }

  lemma {:induction false} FirstsMembers<T>(s: seq<T>)
    ensures forall x :: x in Firsts(s) <==> x in s
    ensures forall i, j :: 0 <= i < j < |Firsts(s)| ==> Firsts(s)[i] != Firsts(s)[j]
  {
    if s != [] {
      FirstsMembers(s[..|s| - 1]);
      assert s == s[..|s| - 1] + [s[|s| - 1]];
    }
  }

  function TotalOccurrences<T(==)>(some: seq<T>, s: seq<T>): nat {
    if some == [] then 0 else TotalOccurrences(some[..|some| - 1], s) + Occurrences(s, some[|some| - 1])
  }

  lemma {:induction false} OneMoreOccurs<T>(some: seq<T>, s: seq<T>, x: T)
    requires forall i, j :: 0 <= i < j < |some| ==> some[i] != some[j]
    ensures TotalOccurrences(some, s + [x]) == TotalOccurrences(some, s) + if x in some then 1 else 0
  {
    if some != [] {
      var init, last := some[..|some| - 1], some[|some| - 1];
      OneMoreOccurs(init, s, x);
      assert (s + [x])[..|s|] == s && some == init + [last];
    }
  }

  lemma {:induction false} AbsentDoesNotOccur<T>(s: seq<T>, x: T)
    ensures Occurrences(s, x) == 0 <==> x !in s
  {
    if s != [] {
      AbsentDoesNotOccur(s[..|s| - 1], x);
      assert s == s[..|s| - 1] + [s[|s| - 1]];
    }
  }

  /** How often each distinct element occurs adds up to all of them: no diagnostic is lost or counted twice. */
  lemma {:induction false} CountsSum<T>(s: seq<T>)
    ensures TotalOccurrences(Firsts(s), s) == |s|
  {
    if s != [] {
      var init, last := s[..|s| - 1], s[|s| - 1];
      CountsSum(init);
      FirstsMembers(init);
      assert s == init + [last];
      OneMoreOccurs(Firsts(init), init, last);
      if last !in init {
        AbsentDoesNotOccur(init, last);
        assert Firsts(s) == Firsts(init) + [last];
        assert (Firsts(init) + [last])[..|Firsts(init)|] == Firsts(init);
      } else {
        assert Firsts(s) == Firsts(init);
      }
    }
  }

  /** The sites of the diagnostics with this key, in order, each once. */
  function Sites(t: Tests, lines: seq<string>, blocks: seq<Block>, key: Key): seq<string>
    requires InRange(lines, blocks)
  {
    if blocks == [] then []
    else
      var init, last := blocks[..|blocks| - 1], blocks[|blocks| - 1];
      var before := Sites(t, lines, init, key);
      var at := t.locate(lines[last.start]);
      if at.None? || KeyOf(t, lines, last) != key || at.value.site in before then before else before + [at.value.site]
  }

  ghost predicate OccursAt(t: Tests, lines: seq<string>, b: Block, key: Key, site: string)
    requires b.start < b.end <= |lines|
  {
    KeyOf(t, lines, b) == key && t.locate(lines[b.start]).Some? && t.locate(lines[b.start]).value.site == site
  }

  /** Some diagnostic with this key is at this site. */
  ghost predicate IsSite(t: Tests, lines: seq<string>, blocks: seq<Block>, key: Key, site: string)
    requires InRange(lines, blocks)
  {
    exists k :: 0 <= k < |blocks| && OccursAt(t, lines, blocks[k], key, site)
  }

  /** Exactly the sites the key occurs at, none twice. */
  lemma {:induction false} SitesAreDistinctAndComplete(t: Tests, lines: seq<string>, blocks: seq<Block>, key: Key)
    requires InRange(lines, blocks)
    ensures forall i, j :: 0 <= i < j < |Sites(t, lines, blocks, key)| ==>
      Sites(t, lines, blocks, key)[i] != Sites(t, lines, blocks, key)[j]
    ensures forall s :: s in Sites(t, lines, blocks, key) <==> IsSite(t, lines, blocks, key, s)
  {
    if blocks != [] {
      var init, last := blocks[..|blocks| - 1], blocks[|blocks| - 1];
      SitesAreDistinctAndComplete(t, lines, init, key);
      var before, sites := Sites(t, lines, init, key), Sites(t, lines, blocks, key);
      assert forall s :: s in sites <==> s in before || OccursAt(t, lines, last, key, s);
      forall s
        ensures s in sites <==> IsSite(t, lines, blocks, key, s)
      {
        LastOccurs(t, lines, blocks, key, s);
      }
    }
  }

  lemma LastOccurs(t: Tests, lines: seq<string>, blocks: seq<Block>, key: Key, s: string)
    requires InRange(lines, blocks) && blocks != []
    ensures var init, last := blocks[..|blocks| - 1], blocks[|blocks| - 1];
      IsSite(t, lines, blocks, key, s) <==> IsSite(t, lines, init, key, s) || OccursAt(t, lines, last, key, s)
  {
    var init, last := blocks[..|blocks| - 1], blocks[|blocks| - 1];
    if k :| 0 <= k < |init| && OccursAt(t, lines, init[k], key, s) {
      assert OccursAt(t, lines, blocks[k], key, s);
    }
    if k :| 0 <= k < |blocks| && OccursAt(t, lines, blocks[k], key, s) {
      assert k < |init| ==> OccursAt(t, lines, init[k], key, s);
    }
  }

  // ----- the rows of sites

  /** Sites are added to the last row until it would grow too long. */
  function Rows(sites: seq<string>): (rows: seq<string>)
    ensures rows != []
  {
    if sites == [] then [LOCATIONS]
    else
      var rows, site := Rows(sites[..|sites| - 1]), sites[|sites| - 1];
      var row := rows[|rows| - 1];
      if |row| + |site| + 2 > MAX_LINE_CHARS && row != LOCATIONS then rows + [LOCATIONS + site]
      else rows[..|rows| - 1] + [row + (if row == LOCATIONS then "" else ", ") + site]
  }

  function JoinCommas(sites: seq<string>): string {
    if sites == [] then ""
    else if |sites| == 1 then sites[0]
    else JoinCommas(sites[..|sites| - 1]) + ", " + sites[|sites| - 1]
  }

  function Flatten<T>(groups: seq<seq<T>>): seq<T> {
    if groups == [] then [] else Flatten(groups[..|groups| - 1]) + groups[|groups| - 1]
  }

  /** Each row lists one group of sites, and stays within a line unless it lists one site only. */
  ghost predicate ListsGroups(rows: seq<string>, groups: seq<seq<string>>) {
    && |rows| == |groups|
    && forall i :: 0 <= i < |rows| ==>
      rows[i] == LOCATIONS + JoinCommas(groups[i]) && (|groups[i]| > 1 ==> |rows[i]| <= 400)
  }

  lemma FlattenOneMore<T>(groups: seq<seq<T>>, group: seq<T>)
    ensures Flatten(groups + [group]) == Flatten(groups) + group
  {
    assert (groups + [group])[..|groups|] == groups;
  }

  lemma JoinCommasOneMore(sites: seq<string>, site: string)
    ensures JoinCommas(sites + [site]) == JoinCommas(sites) + (if sites == [] then "" else ", ") + site
  {
    if sites != [] {
      assert (sites + [site])[..|sites|] == sites;
    } else {
      assert [] + [site] == [site];
    }
  }

  /** One more site on a row of its own. */
  lemma SiteOnNewRow(rows: seq<string>, groups: seq<seq<string>>, site: string)
    requires ListsGroups(rows, groups)
    ensures ListsGroups(rows + [LOCATIONS + site], groups + [[site]])
    ensures Flatten(groups + [[site]]) == Flatten(groups) + [site]
  {
    FlattenOneMore(groups, [site]);
    JoinCommasOneMore([], site);
    assert [] + [site] == [site] && "" + site == site;
    assert JoinCommas([site]) == site;
  }

  /** One more site on the last row. */
  lemma SiteOnLastRow(rows: seq<string>, groups: seq<seq<string>>, row: string, init: seq<seq<string>>, last: seq<string>, site: string)
    requires rows != [] && ListsGroups(rows, groups) && groups == init + [last] && last != []
    requires row == rows[|rows| - 1] && |row| + |site| + 2 <= MAX_LINE_CHARS
    ensures ListsGroups(rows[..|rows| - 1] + [row + ", " + site], init + [last + [site]])
    ensures Flatten(init + [last + [site]]) == Flatten(groups) + [site]
  {
    FlattenOneMore(init, last);
    FlattenOneMore(init, last + [site]);
    LongerRow(row, last, site);
  }

  lemma LongerRow(row: string, last: seq<string>, site: string)
    requires row == LOCATIONS + JoinCommas(last) && last != []
    ensures row + ", " + site == LOCATIONS + JoinCommas(last + [site])
  {
    JoinCommasOneMore(last, site);
  }

  /** The rows list every site exactly once, in order. */
  lemma {:induction false} RowsListEachOnce(sites: seq<string>) returns (groups: seq<seq<string>>)
    requires sites != [] && forall s :: s in sites ==> s != ""
    ensures ListsGroups(Rows(sites), groups) && Flatten(groups) == sites && forall i :: 0 <= i < |groups| ==> groups[i] != []
    ensures |Rows(sites)[|Rows(sites)| - 1]| > |LOCATIONS|
  {
    var init, site := sites[..|sites| - 1], sites[|sites| - 1];
    assert sites == init + [site] && site in sites;
    if |sites| == 1 {
      groups := [[site]];
      FirstSite(sites, site);
    } else {
      assert forall s :: s in init ==> s in sites;
      var before := RowsListEachOnce(init);
      RowsOneMore(init, site, Rows(init));
      groups := NextSite(Rows(init), before, site);
    }
  }

  lemma RowsOneMore(init: seq<string>, site: string, rows: seq<string>)
    requires rows == Rows(init) && |rows[|rows| - 1]| > |LOCATIONS| && site != ""
    ensures var row := rows[|rows| - 1];
      Rows(init + [site]) == if |row| + |site| + 2 > MAX_LINE_CHARS then rows + [LOCATIONS + site]
                             else rows[..|rows| - 1] + [row + ", " + site]
    ensures |Rows(init + [site])[|Rows(init + [site])| - 1]| > |LOCATIONS|
  {
    assert (init + [site])[..|init|] == init;
  }

  lemma FirstSite(sites: seq<string>, site: string)
    requires sites == [site]
    ensures Rows(sites) == [LOCATIONS + site] && ListsGroups([LOCATIONS + site], [[site]]) && Flatten([[site]]) == [site]
  {
    FlattenOneMore<string>([], [site]);
    assert [] + [[site]] == [[site]] && [] + [site] == [site];
    assert Rows(sites[..0]) == [LOCATIONS];
    assert LOCATIONS + "" + site == LOCATIONS + site;
  }

  lemma NextSite(rows: seq<string>, before: seq<seq<string>>, site: string) returns (groups: seq<seq<string>>)
    requires rows != [] && ListsGroups(rows, before) && forall i :: 0 <= i < |before| ==> before[i] != []
    ensures var row := rows[|rows| - 1];
      ListsGroups(if |row| + |site| + 2 > MAX_LINE_CHARS then rows + [LOCATIONS + site]
                  else rows[..|rows| - 1] + [row + ", " + site], groups)
    ensures Flatten(groups) == Flatten(before) + [site] && forall i :: 0 <= i < |groups| ==> groups[i] != []
  {
    var row, last := rows[|rows| - 1], before[|before| - 1];
    assert before == before[..|before| - 1] + [last];
    if |row| + |site| + 2 > MAX_LINE_CHARS {
      SiteOnNewRow(rows, before, site);
      groups := before + [[site]];
    } else {
      SiteOnLastRow(rows, before, row, before[..|before| - 1], last, site);
      groups := before[..|before| - 1] + [last + [site]];
    }
  }

  // ----- what each line becomes

  function Annotation(t: Tests, n: nat, sites: nat): string {
    if sites > 1 then " (" + t.decimal(n) + " occurrences at " + t.decimal(sites) + " locations; all in full log)"
    else " (" + t.decimal(n) + " occurrences)"
  }

  /** What line `i` of block `k` becomes: nothing in a repeat; annotated at the start of a first of several. */
  function BlockLine(t: Tests, lines: seq<string>, blocks: seq<Block>, k: nat, i: nat): seq<string>
    requires InRange(lines, blocks) && k < |blocks| && i < |lines|
  {
    var keys := KeysOf(t, lines, blocks);
    var n, sites := Occurrences(keys, keys[k]), Sites(t, lines, blocks, keys[k]);
    if keys[k] in keys[..k] then []
    else if n <= 1 then [lines[i]]
    else
      (if i == blocks[k].start then [lines[i] + Annotation(t, n, |sites|)] else [lines[i]])
      + if i == blocks[k].end - 1 && |sites| > 1 then Rows(sites) else []
  }

  /** What line `i` becomes; outside the blocks it stays. */
  ghost function Emitted(t: Tests, lines: seq<string>, blocks: seq<Block>, i: nat): seq<string>
    requires InRange(lines, blocks) && i < |lines|
  {
    if k :| 0 <= k < |blocks| && Within(blocks[k], i) then BlockLine(t, lines, blocks, k, i) else [lines[i]]
  }

  ghost function EmittedAll(t: Tests, lines: seq<string>, blocks: seq<Block>, n: nat): seq<string>
    requires InRange(lines, blocks) && n <= |lines|
  {
    if n == 0 then [] else EmittedAll(t, lines, blocks, n - 1) + Emitted(t, lines, blocks, n - 1)
  }

  /** The edits collected before the lines are written out. */
  datatype Edits = Edits(drop: set<nat>, rewrite: map<nat, string>, append: map<nat, seq<string>>)

  function Yield(lines: seq<string>, edits: Edits, i: nat): seq<string>
    requires i < |lines|
  {
    if i in edits.drop then []
    else
      [if i in edits.rewrite then edits.rewrite[i] else lines[i]] + if i in edits.append then edits.append[i] else []
  }

  ghost predicate Planned(t: Tests, lines: seq<string>, blocks: seq<Block>, edits: Edits, k: nat)
    requires InRange(lines, blocks) && k < |blocks|
  {
    forall i :: Within(blocks[k], i) ==> Yield(lines, edits, i) == BlockLine(t, lines, blocks, k, i)
  }

  ghost predicate Untouched(edits: Edits, i: nat) {
    i !in edits.drop && i !in edits.rewrite && i !in edits.append
  }

  /** The first `n` blocks are planned, and nothing else is touched. */
  ghost predicate PlannedBelow(t: Tests, lines: seq<string>, blocks: seq<Block>, edits: Edits, n: nat)
    requires InRange(lines, blocks) && n <= |blocks|
  {
    && (forall k :: 0 <= k < n ==> Planned(t, lines, blocks, edits, k))
    && forall i :: (forall k :: 0 <= k < n ==> !Within(blocks[k], i)) ==> Untouched(edits, i)
  }

  method CountKeys(keys: seq<Key>) returns (counts: map<Key, nat>)
    ensures forall key :: key in keys ==> key in counts && counts[key] == Occurrences(keys, key)
  {
    counts := map[];
    for k := 0 to |keys|
      invariant forall key :: key in keys[..k] <==> key in counts
      invariant forall key :: key in counts ==> counts[key] == Occurrences(keys[..k], key)
    {
      var key := keys[k];
      assert keys[..k + 1] == keys[..k] + [key] && keys[..k + 1][..k] == keys[..k];
      AbsentDoesNotOccur(keys[..k], key);
      counts := counts[key := (if key in counts then counts[key] else 0) + 1];
    }
    assert keys[..|keys|] == keys;
  }

  method CollectSites(t: Tests, lines: seq<string>, blocks: seq<Block>) returns (locations: map<Key, seq<string>>)
    requires InRange(lines, blocks)
    ensures forall key :: Sites(t, lines, blocks, key) == if key in locations then locations[key] else []
  {
    locations := map[];
    for k := 0 to |blocks|
      invariant forall key :: Sites(t, lines, blocks[..k], key) == if key in locations then locations[key] else []
    {
      var b := blocks[k];
      assert blocks[..k + 1][..k] == blocks[..k];
      var key, at := KeyOf(t, lines, b), t.locate(lines[b.start]);
      if at.Some? {
        var sites := if key in locations then locations[key] else [];
        locations := locations[key := if at.value.site in sites then sites else sites + [at.value.site]];
      }
    }
    assert blocks[..|blocks|] == blocks;
  }

  /** The edits of one more block touch its lines only. */
  method PlanBlock(t: Tests, lines: seq<string>, blocks: seq<Block>, k: nat, n: nat, sites: seq<string>, before: Edits, seen: bool)
    returns (edits: Edits)
    requires InRange(lines, blocks) && k < |blocks|
    requires var keys := KeysOf(t, lines, blocks);
      n == Occurrences(keys, keys[k]) && sites == Sites(t, lines, blocks, keys[k]) && (seen <==> keys[k] in keys[..k])
    requires forall i :: Within(blocks[k], i) ==> Untouched(before, i)
    ensures Planned(t, lines, blocks, edits, k)
    ensures forall i: nat :: i < |lines| && !Within(blocks[k], i) ==> Yield(lines, edits, i) == Yield(lines, before, i)
    ensures forall i: nat :: !Within(blocks[k], i) && Untouched(before, i) ==> Untouched(edits, i)
  {
    var b := blocks[k];
    edits := before;
    if seen {
      edits := edits.(drop := edits.drop + set i: nat | i < b.end && Within(b, i));
    } else if n > 1 {
      var note := Annotation(t, n, |sites|);
      edits := edits.(rewrite := edits.rewrite[b.start := lines[b.start] + note]);
      if |sites| > 1 {
        edits := edits.(append := edits.append[b.end - 1 := Rows(sites)]);
      }
      forall i: nat | Within(b, i)
        ensures Yield(lines, edits, i) == BlockLine(t, lines, blocks, k, i)
      {
        LineOfFirst(t, lines, blocks, k, i, n, sites, note, Rows(sites));
        YieldOfFirst(lines, before, edits, b, i, lines[b.start] + note, Rows(sites), |sites| > 1);
      }
    }
  }

  lemma YieldOfFirst(lines: seq<string>, before: Edits, edits: Edits, b: Block, i: nat, first: string, rows: seq<string>, many: bool)
    requires b.end <= |lines| && Within(b, i) && Untouched(before, i)
    requires edits.drop == before.drop && edits.rewrite == before.rewrite[b.start := first]
    requires edits.append == if many then before.append[b.end - 1 := rows] else before.append
    ensures Yield(lines, edits, i) == [if i == b.start then first else lines[i]] + if i == b.end - 1 && many then rows else []
  {
  }

  lemma LineOfFirst(t: Tests, lines: seq<string>, blocks: seq<Block>, k: nat, i: nat, n: nat, sites: seq<string>, note: string,
                    rows: seq<string>)
    requires InRange(lines, blocks) && k < |blocks| && Within(blocks[k], i) && n > 1
    requires var keys := KeysOf(t, lines, blocks);
      n == Occurrences(keys, keys[k]) && sites == Sites(t, lines, blocks, keys[k]) && keys[k] !in keys[..k]
    requires note == Annotation(t, n, |sites|) && rows == Rows(sites)
    ensures BlockLine(t, lines, blocks, k, i)
         == [if i == blocks[k].start then lines[i] + note else lines[i]]
          + if i == blocks[k].end - 1 && |sites| > 1 then rows else []
  {
  }

  /** Identical diagnostics collapsed: every line becomes what `Emitted` says, in order. */
  method CollapseRepeatedTscBlocks(t: Tests, lines: seq<string>) returns (out: seq<string>, ghost blocks: seq<Block>)
    ensures AreBlocks(t, lines, blocks)
    ensures out == EmittedAll(t, lines, blocks, |lines|)
  {
    var found := FindBlocks(t, lines);
    blocks := found;
    if |found| < 2 {
      AllKept(t, lines, found, |lines|);
      assert lines[..|lines|] == lines;
      return lines, found;
    }
    var edits := PlanEdits(t, lines, found);
    out := [];
    for i := 0 to |lines|
      invariant out == EmittedAll(t, lines, found, i)
    {
      YieldIsEmitted(t, lines, found, edits, i);
      out := out + Yield(lines, edits, i);
    }
  }

  method PlanEdits(t: Tests, lines: seq<string>, blocks: seq<Block>) returns (edits: Edits)
    requires InRange(lines, blocks) && InOrder(blocks)
    ensures PlannedBelow(t, lines, blocks, edits, |blocks|)
  {
    var keys := KeysOf(t, lines, blocks);
    var counts := CountKeys(keys);
    var locations := CollectSites(t, lines, blocks);
    var seen: set<Key> := {};
    edits := Edits({}, map[], map[]);
    for k := 0 to |blocks|
      invariant forall key :: key in seen <==> key in keys[..k]
      invariant PlannedBelow(t, lines, blocks, edits, k)
    {
      var key := keys[k];
      var sites := if key in locations then locations[key] else [];
      edits := PlanNext(t, lines, blocks, k, counts[key], sites, edits, key in seen);
      seen := seen + {key};
      Sorting.PrefixGrows(keys, k);
    }
  }

  method PlanNext(t: Tests, lines: seq<string>, blocks: seq<Block>, k: nat, n: nat, sites: seq<string>, before: Edits, seen: bool)
    returns (edits: Edits)
    requires InRange(lines, blocks) && InOrder(blocks) && k < |blocks| && PlannedBelow(t, lines, blocks, before, k)
    requires var keys := KeysOf(t, lines, blocks);
      n == Occurrences(keys, keys[k]) && sites == Sites(t, lines, blocks, keys[k]) && (seen <==> keys[k] in keys[..k])
    ensures PlannedBelow(t, lines, blocks, edits, k + 1)
  {
    OtherBlocks(blocks, k);
    edits := PlanBlock(t, lines, blocks, k, n, sites, before, seen);
    PlannedStays(t, lines, blocks, before, edits, k);
  }

  lemma OtherBlocks(blocks: seq<Block>, k: nat)
    requires InOrder(blocks) && k < |blocks|
    ensures forall j, i :: 0 <= j < |blocks| && j != k && Within(blocks[j], i) ==> !Within(blocks[k], i)
  {
  }

  lemma PlannedStays(t: Tests, lines: seq<string>, blocks: seq<Block>, before: Edits, edits: Edits, k: nat)
    requires InRange(lines, blocks) && InOrder(blocks) && k < |blocks| && PlannedBelow(t, lines, blocks, before, k)
    requires Planned(t, lines, blocks, edits, k)
    requires forall i: nat :: i < |lines| && !Within(blocks[k], i) ==> Yield(lines, edits, i) == Yield(lines, before, i)
    requires forall i: nat :: !Within(blocks[k], i) && Untouched(before, i) ==> Untouched(edits, i)
    ensures PlannedBelow(t, lines, blocks, edits, k + 1)
  {
    OtherBlocks(blocks, k);
    forall j | 0 <= j < k
      ensures Planned(t, lines, blocks, edits, j)
    {
      assert Planned(t, lines, blocks, before, j);
    }
  }

  lemma EmittedInBlock(t: Tests, lines: seq<string>, blocks: seq<Block>, k: nat, i: nat)
    requires InRange(lines, blocks) && InOrder(blocks) && k < |blocks| && Within(blocks[k], i)
    ensures Emitted(t, lines, blocks, i) == BlockLine(t, lines, blocks, k, i)
  {
    OtherBlocks(blocks, k);
  }

  lemma YieldIsEmitted(t: Tests, lines: seq<string>, blocks: seq<Block>, edits: Edits, i: nat)
    requires InRange(lines, blocks) && InOrder(blocks) && PlannedBelow(t, lines, blocks, edits, |blocks|) && i < |lines|
    ensures Yield(lines, edits, i) == Emitted(t, lines, blocks, i)
  {
    if k :| 0 <= k < |blocks| && Within(blocks[k], i) {
      EmittedInBlock(t, lines, blocks, k, i);
      assert Planned(t, lines, blocks, edits, k);
    } else {
      assert Untouched(edits, i);
    }
  }

  lemma {:induction false} AllKept(t: Tests, lines: seq<string>, blocks: seq<Block>, n: nat)
    requires InRange(lines, blocks) && |blocks| < 2 && n <= |lines|
    ensures EmittedAll(t, lines, blocks, n) == lines[..n]
  {
    if n > 0 {
      AllKept(t, lines, blocks, n - 1);
      if |blocks| == 1 {
        var keys := KeysOf(t, lines, blocks);
        assert keys == [keys[0]] && keys[..0] == [] && Occurrences(keys, keys[0]) == 1;
      }
      assert lines[..n] == lines[..n - 1] + [lines[n - 1]];
    }
  }

  /** `k` is not the first block of its key. */
  ghost predicate IsRepeat(t: Tests, lines: seq<string>, blocks: seq<Block>, k: nat)
    requires InRange(lines, blocks) && k < |blocks|
  {
    exists j :: 0 <= j < k && KeyOf(t, lines, blocks[j]) == KeyOf(t, lines, blocks[k])
  }

  /** Lines outside the blocks stay; a line of a block goes exactly when its block is a repeat. */
  lemma OnlyRepeatsGo(t: Tests, lines: seq<string>, blocks: seq<Block>, i: nat)
    requires AreBlocks(t, lines, blocks) && i < |lines|
    ensures (forall k :: 0 <= k < |blocks| ==> !Within(blocks[k], i)) ==> Emitted(t, lines, blocks, i) == [lines[i]]
    ensures Emitted(t, lines, blocks, i) == [] <==>
      exists k :: 0 <= k < |blocks| && Within(blocks[k], i) && IsRepeat(t, lines, blocks, k)
  {
    if k :| 0 <= k < |blocks| && Within(blocks[k], i) {
      EmittedInBlock(t, lines, blocks, k, i);
      RepeatIsEmpty(t, lines, blocks, k, i);
      OtherBlocks(blocks, k);
    }
  }

  lemma RepeatIsEmpty(t: Tests, lines: seq<string>, blocks: seq<Block>, k: nat, i: nat)
    requires InRange(lines, blocks) && k < |blocks| && i < |lines|
    ensures BlockLine(t, lines, blocks, k, i) == [] <==> IsRepeat(t, lines, blocks, k)
  {
    var keys := KeysOf(t, lines, blocks);
    if IsRepeat(t, lines, blocks, k) {
      var j :| 0 <= j < k && KeyOf(t, lines, blocks[j]) == KeyOf(t, lines, blocks[k]);
      assert keys[..k][j] == keys[k];
    }
    if keys[k] in keys[..k] {
      var j :| 0 <= j < k && keys[..k][j] == keys[k];
      assert KeyOf(t, lines, blocks[j]) == KeyOf(t, lines, blocks[k]);
    }
  }

  /** The blocks with the key of block `k`. */
  ghost function Alike(t: Tests, lines: seq<string>, blocks: seq<Block>, k: nat): (alike: set<nat>)
    requires InRange(lines, blocks) && k < |blocks|
    ensures forall j: nat :: j in alike <==> j < |blocks| && KeyOf(t, lines, blocks[j]) == KeyOf(t, lines, blocks[k])
  {
    set j: nat | j < |blocks| && KeyOf(t, lines, blocks[j]) == KeyOf(t, lines, blocks[k])
  }

  /**
   * The first block of a key is shown whole: with no repeats as it is, with some its first line says how many
   * there are in all, and its last is followed by the rows of sites if there is more than one.
   */
  lemma FirstIsShown(t: Tests, lines: seq<string>, blocks: seq<Block>, k: nat, i: nat)
    requires InRange(lines, blocks) && InOrder(blocks) && k < |blocks| && Within(blocks[k], i)
    requires forall j :: 0 <= j < k ==> KeyOf(t, lines, blocks[j]) != KeyOf(t, lines, blocks[k])
    ensures var n, sites := |Alike(t, lines, blocks, k)|, Sites(t, lines, blocks, KeyOf(t, lines, blocks[k]));
      var note := if |sites| > 1
                  then " (" + t.decimal(n) + " occurrences at " + t.decimal(|sites|) + " locations; all in full log)"
                  else " (" + t.decimal(n) + " occurrences)";
      Emitted(t, lines, blocks, i)
        == [if n > 1 && i == blocks[k].start then lines[i] + note else lines[i]]
         + if n > 1 && |sites| > 1 && i == blocks[k].end - 1 then Rows(sites) else []
  {
    var keys := KeysOf(t, lines, blocks);
    EmittedInBlock(t, lines, blocks, k, i);
    OccurrencesAre(keys, keys[k], Alike(t, lines, blocks, k));
    assert forall j :: 0 <= j < k ==> keys[..k][j] != keys[k];
  }

  lemma {:induction false} OccurrencesAre<T>(s: seq<T>, x: T, at: set<nat>)
    requires forall j: nat :: j in at <==> j < |s| && s[j] == x
    ensures Occurrences(s, x) == |at|
  {
    if s == [] {
      assert at == {};
    } else {
      var init, last := s[..|s| - 1], |s| - 1;
      OccurrencesAre(init, x, at - {last});
    }
  }

  /** The counts of the blocks shown, 1 for one shown without a count, add up to all blocks. */
  lemma CountsAccountForAllBlocks(t: Tests, lines: seq<string>, blocks: seq<Block>)
    requires AreBlocks(t, lines, blocks)
    ensures TotalOccurrences(Firsts(KeysOf(t, lines, blocks)), KeysOf(t, lines, blocks)) == |blocks|
    ensures forall k :: 0 <= k < |blocks| ==> Occurrences(KeysOf(t, lines, blocks), KeysOf(t, lines, blocks)[k]) >= 1
  {
    var keys := KeysOf(t, lines, blocks);
    CountsSum(keys);
    forall k | 0 <= k < |blocks|
      ensures Occurrences(keys, keys[k]) >= 1
    {
      AbsentDoesNotOccur(keys, keys[k]);
    }
  }
}
