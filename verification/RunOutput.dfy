/**
 * The bounded summary of a command's output: which ranked lines are kept under the byte limit, and
 * how what was left out is marked. Tiers are in tenths, so that 3.5 is 35; `None` is a dropped line.
 */
module RunOutput {
  import opened Wrappers
  import opened Sorting
  import opened Strings

  const MAX_LINE_CHARS := 400
  const DEFAULT_RUN_OUTPUT_LIMIT_BYTES := 4096
  const FAILURE_TIER := 10
  const ELLIPSIS := "\U{2026}"

  datatype Candidate = Candidate(index: nat, text: string, tier: nat)

  /** The encoded length of a text, the blank lines, decimals, and the two header lines for a number of failures. */
  datatype Printer = Printer(
    bytesOf: string -> nat,
    blank: string -> bool,
    decimal: nat -> string,
    header: nat -> seq<string>)

  type Tiers = seq<Option<nat>>

  // ----- candidates

  function Clip(text: string): string {
    if |text| > MAX_LINE_CHARS then text[..MAX_LINE_CHARS - 1] + ELLIPSIS else text
  }

  function CandidatesOf(ranked: seq<string>, tiers: Tiers): seq<Candidate>
    requires |tiers| == |ranked|
  {
    if ranked == [] then []
    else
      var last := |ranked| - 1;
      CandidatesOf(ranked[..last], tiers[..last])
      + if tiers[last].Some? then [Candidate(last, Clip(ranked[last]), tiers[last].value)] else []
  }

  /** In line order. */
  ghost predicate Increasing(s: seq<Candidate>) {
    forall i, j :: 0 <= i < j < |s| ==> s[i].index < s[j].index
  }

  ghost predicate Distinct(s: seq<Candidate>) {
    forall i, j :: 0 <= i < j < |s| ==> s[i].index != s[j].index
  }

  lemma {:induction false} CandidatesIncrease(ranked: seq<string>, tiers: Tiers)
    requires |tiers| == |ranked|
    ensures Increasing(CandidatesOf(ranked, tiers))
    ensures forall c :: c in CandidatesOf(ranked, tiers) ==> c.index < |ranked|
  {
    if ranked != [] {
      CandidatesIncrease(ranked[..|ranked| - 1], tiers[..|ranked| - 1]);
    }
  }

  /** Every line with a tier is a candidate, clipped to 400 characters. */
  lemma {:induction false} CandidatesAre(ranked: seq<string>, tiers: Tiers, c: Candidate)
    requires |tiers| == |ranked|
    ensures c in CandidatesOf(ranked, tiers) <==>
      && c.index < |ranked| && tiers[c.index] == Some(c.tier)
      && (if |ranked[c.index]| <= 400 then c.text == ranked[c.index]
          else |c.text| == 400 && c.text[..399] == ranked[c.index][..399] && c.text[399] == '\U{2026}')
  {
    if ranked != [] {
      var last := |ranked| - 1;
      CandidatesAre(ranked[..last], tiers[..last], c);
      ClipIs(ranked[last], c.text);
    }
  }

  lemma ClipIs(text: string, clipped: string)
    ensures clipped == Clip(text) <==>
      if |text| <= 400 then clipped == text
      else |clipped| == 400 && clipped[..399] == text[..399] && clipped[399] == '\U{2026}'
  {
    if |text| > 400 && |clipped| == 400 && clipped[..399] == text[..399] && clipped[399] == '\U{2026}' {
      assert clipped == clipped[..399] + [clipped[399]];
    }
  }

  // ----- what is kept

  function LineCost(p: Printer, c: Candidate): nat {
    p.bytesOf(c.text) + 1
  }

  function CostOf(p: Printer): Candidate -> nat {
    (c: Candidate) => LineCost(p, c)
  }

  function Cost(p: Printer, chosen: seq<Candidate>): nat {
    Total(chosen, CostOf(p))
  }

  function CountFailure(c: Candidate, chosen: seq<Candidate>): nat {
    if c.tier == FAILURE_TIER && c !in chosen then 1 else 0
  }

  function LeftOutFailure(chosen: seq<Candidate>): Candidate -> nat {
    (c: Candidate) => CountFailure(c, chosen)
  }

  /** How many failure headers are not in `chosen`. */
  function OmittedFailures(candidates: seq<Candidate>, chosen: seq<Candidate>): nat {
    Total(candidates, LeftOutFailure(chosen))
  }

  /** No left-out line has a better tier than a kept one. */
  ghost predicate BestKept(candidates: seq<Candidate>, chosen: seq<Candidate>) {
    forall c, k :: c in candidates && c !in chosen && k in chosen ==> k.tier <= c.tier
  }

  ghost predicate SubsetOf(chosen: seq<Candidate>, candidates: seq<Candidate>) {
    forall c :: c in chosen ==> c in candidates
  }

  predicate RanksBefore(a: Candidate, b: Candidate) {
    a.tier < b.tier || (a.tier == b.tier && a.index < b.index)
  }

  predicate PrintsBefore(a: Candidate, b: Candidate) {
    a.index < b.index
  }

  /** `b` is left out, ranks no worse than `c`, and has no room beside what is chosen. */
  ghost predicate Blocks(p: Printer, candidates: seq<Candidate>, chosen: seq<Candidate>, budget: nat, b: Candidate, c: Candidate) {
    b in candidates && b !in chosen && b.tier <= c.tier && Cost(p, chosen) + CostOf(p)(b) > budget
  }

  lemma {:induction false} TotalAgrees<T>(s: seq<T>, weight: T -> nat, weight': T -> nat)
    requires forall x :: x in s ==> weight(x) == weight'(x)
    ensures Total(s, weight) == Total(s, weight')
  {
    if s != [] {
      TotalAgrees(s[..|s| - 1], weight, weight');
    }
  }

  lemma TotalOneMore<T>(s: seq<T>, x: T, weight: T -> nat)
    ensures Total(s + [x], weight) == Total(s, weight) + weight(x)
  {
    assert (s + [x])[..|s|] == s;
  }

  /** A line not among `candidates` does not count. */
  lemma OmittedIgnores(candidates: seq<Candidate>, chosen: seq<Candidate>, c: Candidate)
    requires c !in candidates
    ensures OmittedFailures(candidates, chosen + [c]) == OmittedFailures(candidates, chosen)
  {
    TotalAgrees(candidates, LeftOutFailure(chosen), LeftOutFailure(chosen + [c]));
  }

  /** The loop of `select` after the candidates `seen`: `blocker` is the last one that did not fit. */
  ghost predicate Selecting(p: Printer, seen: seq<Candidate>, chosen: seq<Candidate>, used: nat, blocker: Option<Candidate>,
                            omitted: nat, budget: nat)
  {
    && SubsetOf(chosen, seen) && Distinct(chosen)
    && used == Cost(p, chosen) <= budget
    && omitted == OmittedFailures(seen, chosen)
    && match blocker
       case None => SubsetOf(seen, chosen)
       case Some(b) =>
         && b in seen && b !in chosen && used + CostOf(p)(b) > budget
         && (forall c :: c in seen && c !in chosen ==> b.tier <= c.tier)
         && forall k :: k in chosen ==> k.tier <= b.tier
  }

  lemma SelectTakes(p: Printer, seen: seq<Candidate>, chosen: seq<Candidate>, used: nat, blocker: Option<Candidate>,
                    omitted: nat, budget: nat, c: Candidate)
    requires Selecting(p, seen, chosen, used, blocker, omitted, budget) && Distinct(seen + [c])
    requires blocker.Some? ==> c.tier <= blocker.value.tier
    requires used + CostOf(p)(c) <= budget
    ensures Selecting(p, seen + [c], chosen + [c], used + CostOf(p)(c), blocker, omitted, budget)
  {
    NewToSeen(seen, chosen, c);
    TotalOneMore(chosen, c, CostOf(p));
    TotalOneMore(seen, c, LeftOutFailure(chosen + [c]));
    OmittedIgnores(seen, chosen, c);
  }

  lemma SelectLeaves(p: Printer, seen: seq<Candidate>, chosen: seq<Candidate>, used: nat, blocker: Option<Candidate>,
                     omitted: nat, budget: nat, c: Candidate, next: Option<Candidate>)
    requires Selecting(p, seen, chosen, used, blocker, omitted, budget) && Distinct(seen + [c])
    requires forall s :: s in seen ==> s.tier <= c.tier
    requires if blocker.Some? && c.tier > blocker.value.tier then next == blocker
             else used + CostOf(p)(c) > budget && next == Some(c)
    ensures Selecting(p, seen + [c], chosen, used, next, omitted + CountFailure(c, []), budget)
  {
    NewToSeen(seen, chosen, c);
    TotalOneMore(seen, c, LeftOutFailure(chosen));
  }

  lemma NewToSeen(seen: seq<Candidate>, chosen: seq<Candidate>, c: Candidate)
    requires Distinct(seen + [c]) && SubsetOf(chosen, seen) && Distinct(chosen)
    ensures c !in seen && c !in chosen && Distinct(chosen + [c])
  {
    var all := seen + [c];
    forall s | s in seen
      ensures s.index != c.index
    {
      var i :| 0 <= i < |seen| && seen[i] == s;
      assert all[i] == s && all[|seen|] == c;
    }
  }

  /** Fills the budget tier by tier, and inside a tier in line order. */
  method Select(p: Printer, candidates: seq<Candidate>, budget: nat) returns (chosen: seq<Candidate>, omitted: nat)
    requires Distinct(candidates)
    ensures SubsetOf(chosen, candidates) && Distinct(chosen)
    ensures Cost(p, chosen) <= budget
    ensures omitted == OmittedFailures(candidates, chosen)
    ensures BestKept(candidates, chosen)
    ensures forall c :: c in candidates && c !in chosen ==> exists b :: Blocks(p, candidates, chosen, budget, b, c)
  {
    var ordered := Sorted(candidates, RanksBefore);
    RankedOrder(candidates);
    ghost var used: nat, blocker: Option<Candidate>;
    chosen, omitted, used, blocker := Fill(p, ordered, budget);
    SortedTotal(candidates, RanksBefore, LeftOutFailure(chosen));
    SelectedAll(p, candidates, ordered, chosen, used, blocker, omitted, budget);
  }

  ghost predicate Ranked(ordered: seq<Candidate>) {
    Distinct(ordered) && forall i, j :: 0 <= i < j < |ordered| ==> ordered[i].tier <= ordered[j].tier
  }

  function TierOf(blocker: Option<Candidate>): Option<nat> {
    if blocker.None? then None else Some(blocker.value.tier)
  }

  method Fill(p: Printer, ordered: seq<Candidate>, budget: nat)
    returns (chosen: seq<Candidate>, omitted: nat, ghost spent: nat, ghost blocker: Option<Candidate>)
    requires Ranked(ordered)
    ensures Selecting(p, ordered, chosen, spent, blocker, omitted, budget)
  {
    var used: nat, cutoffTier: Option<nat> := 0, None;
    blocker, chosen, omitted := None, [], 0;
    var k := 0;
    while k < |ordered|
      invariant k <= |ordered| && cutoffTier == TierOf(blocker)
      invariant Selecting(p, ordered[..k], chosen, used, blocker, omitted, budget)
    {
      var candidate := ordered[k];
      var cost := p.bytesOf(candidate.text) + 1;
      SelectStep(p, ordered, k, chosen, used, blocker, omitted, budget);
      k := k + 1;
      if cutoffTier.Some? && candidate.tier > cutoffTier.value {
        omitted := omitted + if candidate.tier == FAILURE_TIER then 1 else 0;
        continue;
      }
      if used + cost > budget {
        cutoffTier, blocker := Some(candidate.tier), Some(candidate);
        omitted := omitted + if candidate.tier == FAILURE_TIER then 1 else 0;
        continue;
      }
      used, chosen := used + cost, chosen + [candidate];
    }
    spent := used;
    assert ordered[..|ordered|] == ordered;
  }

  lemma NextRanked(ordered: seq<Candidate>, k: nat)
    requires k < |ordered| && Ranked(ordered)
    ensures ordered[..k + 1] == ordered[..k] + [ordered[k]] && Distinct(ordered[..k] + [ordered[k]])
    ensures forall s :: s in ordered[..k] ==> s.tier <= ordered[k].tier
  {
    assert ordered[..k + 1] == ordered[..k] + [ordered[k]];
  }

  /** One candidate: skipped below the cutoff, the new cutoff if it does not fit, else chosen. */
  lemma SelectStep(p: Printer, ordered: seq<Candidate>, k: nat, chosen: seq<Candidate>, used: nat, blocker: Option<Candidate>,
                   omitted: nat, budget: nat)
    requires k < |ordered| && Ranked(ordered)
    requires Selecting(p, ordered[..k], chosen, used, blocker, omitted, budget)
    ensures var c, seen := ordered[k], ordered[..k + 1];
      if blocker.Some? && c.tier > blocker.value.tier
      then Selecting(p, seen, chosen, used, blocker, omitted + CountFailure(c, []), budget)
      else if used + LineCost(p, c) > budget
      then Selecting(p, seen, chosen, used, Some(c), omitted + CountFailure(c, []), budget)
      else Selecting(p, seen, chosen + [c], used + LineCost(p, c), blocker, omitted, budget)
  {
    var c := ordered[k];
    NextRanked(ordered, k);
    if blocker.Some? && c.tier > blocker.value.tier {
      SelectLeaves(p, ordered[..k], chosen, used, blocker, omitted, budget, c, blocker);
    } else if used + LineCost(p, c) > budget {
      SelectLeaves(p, ordered[..k], chosen, used, blocker, omitted, budget, c, Some(c));
    } else {
      SelectTakes(p, ordered[..k], chosen, used, blocker, omitted, budget, c);
    }
  }

  lemma SelectedAll(p: Printer, candidates: seq<Candidate>, ordered: seq<Candidate>, chosen: seq<Candidate>, used: nat,
                    blocker: Option<Candidate>, omitted: nat, budget: nat)
    requires Selecting(p, ordered, chosen, used, blocker, omitted, budget)
    requires forall c :: c in ordered <==> c in candidates
    ensures BestKept(candidates, chosen)
    ensures forall c :: c in candidates && c !in chosen ==> exists b :: Blocks(p, candidates, chosen, budget, b, c)
  {
    if blocker.Some? {
      assert forall c :: c in candidates && c !in chosen ==> Blocks(p, candidates, chosen, budget, blocker.value, c);
    }
  }

  /** The candidates by tier, then line. */
  lemma RankedOrder(candidates: seq<Candidate>)
    requires Distinct(candidates)
    ensures var ordered := Sorted(candidates, RanksBefore);
      && (forall c :: c in ordered <==> c in candidates)
      && Ranked(ordered)
  {
    SortedIsOrdered(candidates, RanksBefore);
    SortedIsDistinct(candidates, RanksBefore);
  }

  lemma {:induction false} InsertedIsDistinct(s: seq<Candidate>, x: Candidate, less: (Candidate, Candidate) -> bool)
    requires Distinct(s) && forall c :: c in s ==> c.index != x.index
    ensures Distinct(Inserted(s, x, less))
    ensures forall c :: c in Inserted(s, x, less) <==> c in s || c == x
  {
    if s != [] && less(x, s[|s| - 1]) {
      InsertedIsDistinct(s[..|s| - 1], x, less);
      assert s == s[..|s| - 1] + [s[|s| - 1]];
      assert forall c :: c in s[..|s| - 1] ==> c.index != s[|s| - 1].index;
    }
  }

  lemma {:induction false} SortedIsDistinct(s: seq<Candidate>, less: (Candidate, Candidate) -> bool)
    requires Distinct(s)
    ensures Distinct(Sorted(s, less))
    ensures forall c :: c in Sorted(s, less) <==> c in s
  {
    if s != [] {
      SortedIsDistinct(s[..|s| - 1], less);
      assert s == s[..|s| - 1] + [s[|s| - 1]];
      InsertedIsDistinct(Sorted(s[..|s| - 1], less), s[|s| - 1], less);
    }
  }

  // ----- the printed text

  /** Some line strictly between lines `a` and `b` is not blank. */
  ghost predicate GapHasContent(p: Printer, ranked: seq<string>, a: nat, b: nat) {
    exists j :: a < j < b && j < |ranked| && !p.blank(ranked[j])
  }

  /** The kept lines, with a mark wherever content was left out between two of them. */
  ghost function Body(p: Printer, ranked: seq<string>, kept: seq<Candidate>): seq<string> {
    if kept == [] then []
    else
      var n := |kept|;
      Body(p, ranked, kept[..n - 1])
      + (if n > 1 && GapHasContent(p, ranked, kept[n - 2].index, kept[n - 1].index) then [ELLIPSIS] else [])
      + [kept[n - 1].text]
  }

  function Footer(p: Printer, omitted: nat): seq<string> {
    if omitted == 0 then []
    else [ELLIPSIS + " " + p.decimal(omitted) + if omitted == 1 then " more failure line in the log" else " more failure lines in the log"]
  }

  function Failures(candidates: seq<Candidate>): nat {
    OmittedFailures(candidates, [])
  }

  /** The summary that keeps `kept`. */
  ghost function Summary(p: Printer, ranked: seq<string>, candidates: seq<Candidate>, kept: seq<Candidate>): string {
    JoinLines(p.header(Failures(candidates)) + Body(p, ranked, kept) + Footer(p, OmittedFailures(candidates, kept))) + "\n"
  }

  /** The non-blank lines before line `i`. */
  function ContentBefore(p: Printer, ranked: seq<string>, i: nat): nat
    requires i <= |ranked|
  {
    if i == 0 then 0 else ContentBefore(p, ranked, i - 1) + if p.blank(ranked[i - 1]) then 0 else 1
  }

  lemma {:induction false} ContentBeforeGrows(p: Printer, ranked: seq<string>, a: nat, b: nat)
    requires a < b <= |ranked|
    ensures ContentBefore(p, ranked, a + 1) <= ContentBefore(p, ranked, b)
    ensures ContentBefore(p, ranked, b) > ContentBefore(p, ranked, a + 1) <==> GapHasContent(p, ranked, a, b)
    decreases b
  {
    if a + 1 < b {
      ContentBeforeGrows(p, ranked, a, b - 1);
      if GapHasContent(p, ranked, a, b - 1) {
        var j :| a < j < b - 1 && !p.blank(ranked[j]);
        assert a < j < b;
      }
      if !p.blank(ranked[b - 1]) {
        assert a < b - 1 < b;
      }
    }
  }

  method Render(p: Printer, header: seq<string>, chosen: seq<Candidate>, footer: seq<string>, contentBefore: array<nat>,
                ghost ranked: seq<string>)
    returns (text: string)
    requires Distinct(chosen) && forall c :: c in chosen ==> c.index < |ranked|
    requires contentBefore.Length == |ranked| + 1
    requires forall i :: 0 <= i <= |ranked| ==> contentBefore[i] == ContentBefore(p, ranked, i)
    ensures text == JoinLines(header + Body(p, ranked, Sorted(chosen, PrintsBefore)) + footer) + "\n"
  {
    var inOrder := Sorted(chosen, PrintsBefore);
    PrintOrder(chosen);
    var body: seq<string> := [];
    var previous: int := -1;
    for k := 0 to |inOrder|
      invariant body == Body(p, ranked, inOrder[..k])
      invariant previous == if k == 0 then -1 else inOrder[k - 1].index
    {
      var candidate := inOrder[k];
      assert candidate in inOrder;
      assert inOrder[..k + 1][..k] == inOrder[..k];
      if previous >= 0 {
        ContentBeforeGrows(p, ranked, previous, candidate.index);
      }
      if previous >= 0 && contentBefore[candidate.index] > contentBefore[previous + 1] {
        body := body + [ELLIPSIS];
      }
      body := body + [candidate.text];
      previous := candidate.index;
    }
    assert inOrder[..|inOrder|] == inOrder;
    text := JoinLines(header + body + footer) + "\n";
  }

  lemma PrintOrder(chosen: seq<Candidate>)
    requires Distinct(chosen)
    ensures Increasing(Sorted(chosen, PrintsBefore))
    ensures forall c :: c in Sorted(chosen, PrintsBefore) <==> c in chosen
  {
    SortedIsOrdered(chosen, PrintsBefore);
    SortedIsDistinct(chosen, PrintsBefore);
  }

  // ----- the whole summary

  function Limit(limitBytes: Option<int>): nat {
    var asked := if limitBytes.Some? then limitBytes.value else DEFAULT_RUN_OUTPUT_LIMIT_BYTES;
    if asked > 512 then asked else 512
  }

  /** The room for kept lines: what the headers and a reserve for marks leave of the limit. */
  function Budget(p: Printer, candidates: seq<Candidate>, limit: nat): nat {
    var failures := Failures(candidates);
    var taken := p.bytesOf(JoinLines(p.header(failures))) + 1 + if failures > 0 then 80 else 40;
    if limit > taken then limit - taken else 0
  }

  /**
   * A candidate is without room exactly when the headers, a reserve of 80 bytes if there are failure lines and of
   * 40 otherwise, the chosen lines and this one, with a line feed each, come to more than the limit.
   */
  lemma BlocksIff(p: Printer, candidates: seq<Candidate>, chosen: seq<Candidate>, limit: nat, b: Candidate, c: Candidate,
                  size: Candidate -> nat)
    requires forall x :: size(x) == p.bytesOf(x.text) + 1
    ensures var reserve := if exists x :: x in candidates && x.tier == 10 then 80 else 40;
      Blocks(p, candidates, chosen, Budget(p, candidates, limit), b, c) <==>
        && b in candidates && b !in chosen && b.tier <= c.tier
        && p.bytesOf(JoinLines(p.header(Failures(candidates)))) + 1 + reserve + Total(chosen, size) + size(b) > limit
  {
    TotalAgrees(chosen, size, CostOf(p));
    SomeFailure(candidates, []);
  }

  lemma {:induction false} SomeFailure(candidates: seq<Candidate>, chosen: seq<Candidate>)
    ensures OmittedFailures(candidates, chosen) > 0 <==> exists x :: x in candidates && x.tier == 10 && x !in chosen
  {
    if candidates != [] {
      var init, last := candidates[..|candidates| - 1], candidates[|candidates| - 1];
      SomeFailure(init, chosen);
      assert candidates == init + [last];
    }
  }

  /** The failure lines left out, counted in the ranked lines. */
  ghost function LeftOut(ranked: seq<string>, tiers: Tiers, kept: seq<Candidate>): (lines: set<nat>)
    requires |tiers| == |ranked|
    ensures forall i: nat :: i in lines <==> i < |ranked| && tiers[i] == Some(10) && forall k :: k in kept ==> k.index != i
  {
    set i: nat | i < |ranked| && tiers[i] == Some(10) && forall k :: k in kept ==> k.index != i
  }

  lemma {:induction false} OmittedIsCount(ranked: seq<string>, tiers: Tiers, kept: seq<Candidate>)
    requires |tiers| == |ranked|
    requires forall k :: k in kept && k.index < |ranked| ==> tiers[k.index] == Some(k.tier) && k.text == Clip(ranked[k.index])
    ensures OmittedFailures(CandidatesOf(ranked, tiers), kept) == |LeftOut(ranked, tiers, kept)|
  {
    if ranked != [] {
      var last := |ranked| - 1;
      OmittedIsCount(ranked[..last], tiers[..last], kept);
      LeftOutGrows(ranked, tiers, kept);
      if tiers[last].Some? {
        var c := Candidate(last, Clip(ranked[last]), tiers[last].value);
        TotalOneMore(CandidatesOf(ranked[..last], tiers[..last]), c, LeftOutFailure(kept));
        OnlyLine(kept, c);
      } else {
        assert CandidatesOf(ranked, tiers) == CandidatesOf(ranked[..last], tiers[..last]);
      }
    }
  }

  lemma OnlyLine(kept: seq<Candidate>, c: Candidate)
    requires forall k :: k in kept && k.index == c.index ==> k == c
    ensures c in kept <==> exists k :: k in kept && k.index == c.index
    ensures CountFailure(c, kept) == if c.tier == 10 && forall k :: k in kept ==> k.index != c.index then 1 else 0
  {
  }

  lemma LeftOutGrows(ranked: seq<string>, tiers: Tiers, kept: seq<Candidate>)
    requires |tiers| == |ranked| > 0
    ensures var last := |ranked| - 1;
      |LeftOut(ranked, tiers, kept)| == |LeftOut(ranked[..last], tiers[..last], kept)|
        + if tiers[last] == Some(10) && forall k :: k in kept ==> k.index != last then 1 else 0
  {
    var last := |ranked| - 1;
    var before, after := LeftOut(ranked[..last], tiers[..last], kept), LeftOut(ranked, tiers, kept);
    if tiers[last] == Some(10) && forall k :: k in kept ==> k.index != last {
      assert after == before + {last};
    } else {
      assert after == before;
    }
  }

  /** The summary's first part counts all failure lines and its last line those left out, if there are any. */
  lemma SummaryReads(p: Printer, ranked: seq<string>, tiers: Tiers, kept: seq<Candidate>)
    requires |tiers| == |ranked| && SubsetOf(kept, CandidatesOf(ranked, tiers))
    ensures var omitted := |LeftOut(ranked, tiers, kept)|;
      var note := if omitted == 1 then "\U{2026}" + " " + p.decimal(1) + " more failure line in the log"
                  else "\U{2026}" + " " + p.decimal(omitted) + " more failure lines in the log";
      Summary(p, ranked, CandidatesOf(ranked, tiers), kept)
        == JoinLines(p.header(|LeftOut(ranked, tiers, [])|) + Body(p, ranked, kept) + if omitted == 0 then [] else [note]) + "\n"
  {
    forall k | k in kept
      ensures k.index < |ranked| ==> tiers[k.index] == Some(k.tier) && k.text == Clip(ranked[k.index])
    {
      CandidatesAre(ranked, tiers, k);
      ClipIs(ranked[k.index], k.text);
    }
    OmittedIsCount(ranked, tiers, kept);
    OmittedIsCount(ranked, tiers, []);
    FooterReads(p, |LeftOut(ranked, tiers, kept)|);
  }

  lemma FooterReads(p: Printer, omitted: nat)
    ensures Footer(p, omitted) ==
      if omitted == 0 then []
      else if omitted == 1 then ["\U{2026}" + " " + p.decimal(1) + " more failure line in the log"]
      else ["\U{2026}" + " " + p.decimal(omitted) + " more failure lines in the log"]
  {
  }

  /** Line `b` stands after line `a`, with a mark in between if some line between them is not blank. */
  ghost predicate Spaced(p: Printer, ranked: seq<string>, a: nat, b: nat, body: seq<string>, atA: nat, atB: nat) {
    && ((exists j :: a < j < b && j < |ranked| && !p.blank(ranked[j])) ==>
          atB == atA + 2 && atB <= |body| && body[atB - 1] == "\U{2026}")
    && ((forall j :: a < j < b && j < |ranked| ==> p.blank(ranked[j])) ==> atB == atA + 1)
  }

  /** Kept line `k` stands at `at[k]`, and a mark between two of them exactly if content was left out there. */
  ghost predicate Marked(p: Printer, ranked: seq<string>, kept: seq<Candidate>, body: seq<string>, at: seq<nat>) {
    && |at| == |kept| && |body| == (if kept == [] then 0 else at[|kept| - 1] + 1)
    && (forall k :: 0 <= k < |kept| ==> at[k] < |body| && body[at[k]] == kept[k].text)
    && (kept != [] ==> at[0] == 0)
    && forall k :: 1 <= k < |kept| ==> Spaced(p, ranked, kept[k - 1].index, kept[k].index, body, at[k - 1], at[k])
  }

  lemma {:induction false} BodyMarksGaps(p: Printer, ranked: seq<string>, kept: seq<Candidate>) returns (at: seq<nat>)
    ensures Marked(p, ranked, kept, Body(p, ranked, kept), at)
  {
    if kept == [] {
      at := [];
    } else {
      var n := |kept|;
      var before := BodyMarksGaps(p, ranked, kept[..n - 1]);
      var mark := if n > 1 && GapHasContent(p, ranked, kept[n - 2].index, kept[n - 1].index) then [ELLIPSIS] else [];
      at := OneMoreMarked(p, ranked, kept, Body(p, ranked, kept[..n - 1]), before, mark);
    }
  }

  lemma OneMoreMarked(p: Printer, ranked: seq<string>, kept: seq<Candidate>, init: seq<string>, before: seq<nat>, mark: seq<string>)
    returns (at: seq<nat>)
    requires kept != [] && Marked(p, ranked, kept[..|kept| - 1], init, before)
    requires mark == if |kept| > 1 && GapHasContent(p, ranked, kept[|kept| - 2].index, kept[|kept| - 1].index)
                     then ["\U{2026}"] else []
    ensures Marked(p, ranked, kept, init + mark + [kept[|kept| - 1].text], at)
  {
    var body := init + mark + [kept[|kept| - 1].text];
    at := before + [|body| - 1];
    forall k | 0 <= k < |kept| - 1
      ensures at[k] == before[k] && body[at[k]] == init[before[k]]
    {
    }
    assert |mark| == 1 ==> body[|body| - 2] == mark[0];
  }

  /** `more` keeps `b` besides what `kept` keeps. */
  ghost predicate Adds(kept: seq<Candidate>, b: Candidate, more: seq<Candidate>) {
    Increasing(more) && forall x :: x in more <==> x in kept || x == b
  }

  /** `b` is left out, ranks no worse than `c`, and keeping it as well takes the summary over the limit. */
  ghost predicate Overflows(p: Printer, ranked: seq<string>, candidates: seq<Candidate>, kept: seq<Candidate>, limit: nat,
                            b: Candidate, c: Candidate)
  {
    && b in candidates && b !in kept && b.tier <= c.tier
    && exists more :: Adds(kept, b, more) && p.bytesOf(Summary(p, ranked, candidates, more)) > limit
  }

  /** Every left-out line has a reason: a line at least as good that does not fit either. */
  ghost predicate Tight(p: Printer, ranked: seq<string>, candidates: seq<Candidate>, kept: seq<Candidate>, limit: nat) {
    forall c :: c in candidates && c !in kept ==>
      exists b ::
        || Blocks(p, candidates, kept, Budget(p, candidates, limit), b, c)
        || Overflows(p, ranked, candidates, kept, limit, b, c)
  }

  /** The state of the trim loop. */
  ghost predicate Trimmed(p: Printer, ranked: seq<string>, candidates: seq<Candidate>, limit: nat,
                          chosen: seq<Candidate>, omitted: nat, result: string)
  {
    var kept := Sorted(chosen, PrintsBefore);
    && SubsetOf(chosen, candidates) && Distinct(chosen)
    && omitted == OmittedFailures(candidates, chosen)
    && BestKept(candidates, chosen)
    && Tight(p, ranked, candidates, kept, limit)
    && result == Summary(p, ranked, candidates, kept)
  }

  method CompressRunOutput(p: Printer, ranked: seq<string>, tiers: Tiers, limitBytes: Option<int>)
    returns (result: string, ghost kept: seq<Candidate>)
    requires |tiers| == |ranked|
    ensures var candidates := CandidatesOf(ranked, tiers); var limit := Limit(limitBytes);
      && Increasing(kept) && SubsetOf(kept, candidates)
      && result == Summary(p, ranked, candidates, kept)
      && (p.bytesOf(result) <= limit || kept == [])
      && BestKept(candidates, kept)
      && Tight(p, ranked, candidates, kept, limit)
    ensures kept != [] && limitBytes.Some? ==>
      p.bytesOf(result) <= if limitBytes.value >= 512 then limitBytes.value else 512
    ensures kept != [] && limitBytes.None? ==> p.bytesOf(result) <= 4096
  {
    var limit := Limit(limitBytes);
    var candidates := CandidatesOf(ranked, tiers);
    CandidatesIncrease(ranked, tiers);
    var chosen, omitted := Select(p, candidates, Budget(p, candidates, limit));
    var contentBefore := CountContent(p, ranked);
    result, kept := Trim(p, ranked, candidates, limit, contentBefore, chosen, omitted);
  }

  /** Renders, and drops the least important chosen line as long as the result is too long. */
  method Trim(p: Printer, ghost ranked: seq<string>, candidates: seq<Candidate>, limit: nat, contentBefore: array<nat>,
              selected: seq<Candidate>, omittedFailureLines: nat)
    returns (result: string, ghost kept: seq<Candidate>)
    requires Distinct(candidates) && forall c :: c in candidates ==> c.index < |ranked|
    requires SubsetOf(selected, candidates) && Distinct(selected) && BestKept(candidates, selected)
    requires omittedFailureLines == OmittedFailures(candidates, selected)
    requires forall c :: c in candidates && c !in selected ==>
      exists b :: Blocks(p, candidates, selected, Budget(p, candidates, limit), b, c)
    requires contentBefore.Length == |ranked| + 1
    requires forall i :: 0 <= i <= |ranked| ==> contentBefore[i] == ContentBefore(p, ranked, i)
    ensures Increasing(kept) && SubsetOf(kept, candidates) && BestKept(candidates, kept)
    ensures result == Summary(p, ranked, candidates, kept)
    ensures p.bytesOf(result) <= limit || kept == []
    ensures Tight(p, ranked, candidates, kept, limit)
  {
    var header := p.header(Failures(candidates));
    var chosen, omitted := selected, omittedFailureLines;
    result := Render(p, header, chosen, Footer(p, omitted), contentBefore, ranked);
    SelectedIsTrimmed(p, ranked, candidates, limit, chosen, omitted, result);
    while p.bytesOf(result) > limit && |chosen| > 0
      invariant Trimmed(p, ranked, candidates, limit, chosen, omitted, result)
      decreases |chosen|
    {
      chosen, omitted, result := DropOne(p, ranked, candidates, limit, contentBefore, header, chosen, omitted, result);
    }
    kept := Sorted(chosen, PrintsBefore);
    PrintOrder(chosen);
  }

  method DropOne(p: Printer, ghost ranked: seq<string>, ghost candidates: seq<Candidate>, ghost limit: nat,
                 contentBefore: array<nat>, header: seq<string>, before: seq<Candidate>, omittedBefore: nat, ghost was: string)
    returns (chosen: seq<Candidate>, omitted: nat, result: string)
    requires Distinct(candidates) && forall c :: c in candidates ==> c.index < |ranked|
    requires Trimmed(p, ranked, candidates, limit, before, omittedBefore, was)
    requires p.bytesOf(was) > limit && before != [] && header == p.header(Failures(candidates))
    requires contentBefore.Length == |ranked| + 1
    requires forall i :: 0 <= i <= |ranked| ==> contentBefore[i] == ContentBefore(p, ranked, i)
    ensures |chosen| < |before| && Trimmed(p, ranked, candidates, limit, chosen, omitted, result)
  {
    var drop := LeastImportant(before);
    TrimKeeps(p, ranked, candidates, limit, before, omittedBefore, was, drop);
    omitted := omittedBefore + if before[drop].tier == FAILURE_TIER then 1 else 0;
    chosen := before[..drop] + before[drop + 1..];
    result := Render(p, header, chosen, Footer(p, omitted), contentBefore, ranked);
  }

  lemma OneLineMore(p: Printer, ranked: seq<string>, i: nat)
    requires i < |ranked|
    ensures ContentBefore(p, ranked, i + 1) == ContentBefore(p, ranked, i) + if p.blank(ranked[i]) then 0 else 1
  {
  }

  method CountContent(p: Printer, ranked: seq<string>) returns (contentBefore: array<nat>)
    ensures fresh(contentBefore) && contentBefore.Length == |ranked| + 1
    ensures forall i :: 0 <= i <= |ranked| ==> contentBefore[i] == ContentBefore(p, ranked, i)
  {
    contentBefore := new nat[|ranked| + 1](_ => 0);
    for index := 0 to |ranked|
      invariant forall i {:trigger contentBefore[i]} :: 0 <= i <= index ==> contentBefore[i] == ContentBefore(p, ranked, i)
    {
      OneLineMore(p, ranked, index);
      contentBefore[index + 1] := contentBefore[index] + if p.blank(ranked[index]) then 0 else 1;
    }
  }

  /** The chosen line with the highest tier, the last one of them. */
  method LeastImportant(chosen: seq<Candidate>) returns (drop: nat)
    requires chosen != []
    ensures drop < |chosen| && forall k :: k in chosen ==> !RanksBefore(chosen[drop], k)
  {
    drop := 0;
    for i := 1 to |chosen|
      invariant drop < |chosen| && forall j :: 0 <= j < i ==> !RanksBefore(chosen[drop], chosen[j])
    {
      var a, b := chosen[i], chosen[drop];
      if a.tier > b.tier || (a.tier == b.tier && a.index > b.index) {
        drop := i;
      }
    }
  }

  lemma SelectedIsTrimmed(p: Printer, ranked: seq<string>, candidates: seq<Candidate>, limit: nat,
                          chosen: seq<Candidate>, omitted: nat, result: string)
    requires SubsetOf(chosen, candidates) && Distinct(chosen) && BestKept(candidates, chosen)
    requires omitted == OmittedFailures(candidates, chosen)
    requires forall c :: c in candidates && c !in chosen ==>
      exists b :: Blocks(p, candidates, chosen, Budget(p, candidates, limit), b, c)
    requires var kept := Sorted(chosen, PrintsBefore);
      result == JoinLines(p.header(Failures(candidates)) + Body(p, ranked, kept) + Footer(p, omitted)) + "\n"
    ensures Trimmed(p, ranked, candidates, limit, chosen, omitted, result)
  {
    var kept := Sorted(chosen, PrintsBefore);
    PrintOrder(chosen);
    OmittedSame(candidates, chosen, kept);
    SortedTotal(chosen, PrintsBefore, CostOf(p));
    forall c | c in candidates && c !in kept
      ensures exists b :: Blocks(p, candidates, kept, Budget(p, candidates, limit), b, c)
    {
      var b :| Blocks(p, candidates, chosen, Budget(p, candidates, limit), b, c);
      assert Blocks(p, candidates, kept, Budget(p, candidates, limit), b, c);
    }
  }

  /** Only which lines are kept matters to the count. */
  lemma OmittedSame(candidates: seq<Candidate>, chosen: seq<Candidate>, kept: seq<Candidate>)
    requires forall c :: c in kept <==> c in chosen
    ensures OmittedFailures(candidates, kept) == OmittedFailures(candidates, chosen)
  {
    TotalAgrees(candidates, LeftOutFailure(kept), LeftOutFailure(chosen));
  }

  lemma WithoutOne(chosen: seq<Candidate>, drop: nat)
    requires Distinct(chosen) && drop < |chosen|
    ensures var rest := chosen[..drop] + chosen[drop + 1..];
      Distinct(rest) && forall c :: c in rest <==> c in chosen && c != chosen[drop]
  {
    var rest := chosen[..drop] + chosen[drop + 1..];
    forall c
      ensures c in rest <==> c in chosen && c != chosen[drop]
    {
      if c in chosen && c != chosen[drop] {
        var i :| 0 <= i < |chosen| && chosen[i] == c;
        assert rest[if i < drop then i else i - 1] == c;
      }
    }
  }

  lemma {:induction false} OmittedOneMore(candidates: seq<Candidate>, chosen: seq<Candidate>, rest: seq<Candidate>, d: Candidate)
    requires Distinct(candidates) && d in chosen && forall c :: c in rest <==> c in chosen && c != d
    ensures OmittedFailures(candidates, rest)
         == OmittedFailures(candidates, chosen) + if d in candidates && d.tier == FAILURE_TIER then 1 else 0
  {
    if candidates != [] {
      var init, last := candidates[..|candidates| - 1], candidates[|candidates| - 1];
      assert candidates == init + [last];
      OmittedOneMore(init, chosen, rest, d);
      NewToSeen(init, [], last);
    }
  }

  /** One more line is dropped: it was the best of the dropped ones, and with it the summary was too long. */
  lemma TrimKeeps(p: Printer, ranked: seq<string>, candidates: seq<Candidate>, limit: nat,
                  chosen: seq<Candidate>, omitted: nat, result: string, drop: nat)
    requires Distinct(candidates) && Trimmed(p, ranked, candidates, limit, chosen, omitted, result)
    requires p.bytesOf(result) > limit && drop < |chosen|
    requires forall k :: k in chosen ==> !RanksBefore(chosen[drop], k)
    ensures var rest := chosen[..drop] + chosen[drop + 1..];
      var kept := Sorted(rest, PrintsBefore);
      var more: nat := if chosen[drop].tier == FAILURE_TIER then 1 else 0;
      && Distinct(rest) && SubsetOf(rest, candidates)
      && OmittedFailures(candidates, kept) == omitted + more
      && Trimmed(p, ranked, candidates, limit, rest, omitted + more, Summary(p, ranked, candidates, kept))
  {
    var d, rest := chosen[drop], chosen[..drop] + chosen[drop + 1..];
    var more, kept := Sorted(chosen, PrintsBefore), Sorted(rest, PrintsBefore);
    WithoutOne(chosen, drop);
    OmittedOneMore(candidates, chosen, rest, d);
    PrintOrder(chosen);
    PrintOrder(rest);
    OmittedSame(candidates, rest, kept);
    assert Adds(kept, d, more);
    assert forall c :: c in candidates && c !in kept ==> Overflows(p, ranked, candidates, kept, limit, d, c);
  }

  // ----- the failure safety net

  const NET_DETAIL_CAP := 12
  const FRAME_CAP := 3

  /** The line tests of the safety net, and a line's indentation. */
  datatype Vocabulary = Vocabulary(
    blank: string -> bool,
    indent: string -> nat,
    frame: string -> bool,
    failure: string -> bool,
    count: string -> bool)

  /** `Math.min`, a dropped line being infinitely far down. */
  function Raised(tier: Option<nat>, to: nat): Option<nat> {
    if tier.Some? && tier.value <= to then tier else Some(to)
  }

  predicate NoWorse(after: Option<nat>, before: Option<nat>) {
    before.Some? ==> after.Some? && after.value <= before.value
  }

  /** The detail lines, that is the non-blank lines that are no stack frames, from `lo` up to `hi`. */
  ghost function Details(v: Vocabulary, lines: seq<string>, lo: nat, hi: nat): nat
    requires lo <= hi <= |lines|
    decreases hi
  {
    if lo == hi then 0
    else Details(v, lines, lo, hi - 1) + if v.blank(lines[hi - 1]) || v.frame(lines[hi - 1]) then 0 else 1
  }

  /** Everything from the failure line `h` up to `k` is indented below it, with at most `n` detail lines. */
  ghost predicate Under(v: Vocabulary, lines: seq<string>, h: nat, k: nat, n: nat) {
    && h < k <= |lines| && v.failure(lines[h]) && !v.blank(lines[h])
    && (forall j :: h < j < k && !v.blank(lines[j]) ==> v.indent(lines[j]) > v.indent(lines[h]))
    && Details(v, lines, h + 1, k) <= n
  }

  /** Line `i` is a detail of an earlier failure line. */
  ghost predicate IsDetail(v: Vocabulary, lines: seq<string>, i: nat) {
    exists h :: 0 <= h < i < |lines| && Under(v, lines, h, i, NET_DETAIL_CAP - 1) && v.indent(lines[i]) > v.indent(lines[h])
  }

  /** What the net promises of line `i`. */
  ghost predicate Netted(v: Vocabulary, lines: seq<string>, recognised: bool, before: Option<nat>, after: Option<nat>, i: nat)
    requires i < |lines|
  {
    && NoWorse(after, before)
    && (recognised && before.Some? ==> after == before)
    && (v.blank(lines[i]) ==> after == before)
    && (v.failure(lines[i]) && !v.blank(lines[i]) && (!recognised || before.None?) ==>
          (after.Some? && after.value <= if recognised then 35 else 10) || IsDetail(v, lines, i))
    && (after != before ==> after.Some? && after.value in if recognised then {30, 35, 36} else {10, 20, 30})
  }

  /** The stack frames from `lo` up to `hi`. */
  ghost function Frames(v: Vocabulary, lines: seq<string>, lo: nat, hi: nat): nat
    requires lo <= hi <= |lines|
    decreases hi
  {
    if lo == hi then 0
    else Frames(v, lines, lo, hi - 1) + if !v.blank(lines[hi - 1]) && v.frame(lines[hi - 1]) then 1 else 0
  }

  /** Line `i` is indented under the failure line `h`, after fewer than 12 of its details. */
  ghost predicate Covers(v: Vocabulary, lines: seq<string>, h: nat, i: nat)
    requires i < |lines|
  {
    Under(v, lines, h, i, 11) && v.indent(lines[i]) > v.indent(lines[h])
  }

  /** Line `h` is a failure line the net may rank, and no detail of an earlier one. */
  ghost predicate Opens(v: Vocabulary, lines: seq<string>, eligible: seq<bool>, h: nat)
    requires h < |lines| == |eligible|
    decreases h
  {
    && !v.blank(lines[h]) && v.failure(lines[h]) && eligible[h]
    && forall g :: 0 <= g < h && Covers(v, lines, g, h) ==> !Opens(v, lines, eligible, g)
  }

  /**
   * The tier of line `i` in full: under an opening failure line every detail, and every frame but those after the
   * third, gets at least the detail tier; else a failure line the header tier and a count line 3.
   */
  ghost predicate Placed(v: Vocabulary, lines: seq<string>, eligible: seq<bool>, recognised: bool, before: Option<nat>,
                         after: Option<nat>, i: nat)
    requires i < |lines| == |eligible|
  {
    if v.blank(lines[i]) || !eligible[i] then after == before
    else
      && (forall h :: 0 <= h < i && Opens(v, lines, eligible, h) && Covers(v, lines, h, i) ==>
            if v.frame(lines[i]) && Frames(v, lines, h + 1, i) >= 3 then after == before
            else IsBest(after, before, if recognised then 36 else 20))
      && ((forall h :: 0 <= h < i && Opens(v, lines, eligible, h) ==> !Covers(v, lines, h, i)) ==>
            if v.failure(lines[i]) then IsBest(after, before, if recognised then 35 else 10)
            else if v.count(lines[i]) then IsBest(after, before, 30)
            else after == before)
  }

  /** `after` is the better of `before` and `tier`. */
  ghost predicate IsBest(after: Option<nat>, before: Option<nat>, tier: nat) {
    && after.Some? && after.value <= tier && (before.Some? ==> after.value <= before.value)
    && (after == Some(tier) || after == before)
  }

  /** Where the loop stands before line `k`: `detailLeft` of the details of the last opening line are still to come. */
  ghost predicate Window(v: Vocabulary, lines: seq<string>, eligible: seq<bool>, k: nat, header: nat, detailLeft: nat, framesLeft: int)
    requires k <= |lines| == |eligible|
  {
    && (detailLeft > 0 ==>
          && detailLeft <= 12 && header < k && Opens(v, lines, eligible, header) && Under(v, lines, header, k, 12 - detailLeft)
          && Details(v, lines, header + 1, k) == 12 - detailLeft && framesLeft == 3 - Frames(v, lines, header + 1, k))
    && forall h :: 0 <= h < k && Opens(v, lines, eligible, h) && Under(v, lines, h, k, 11) ==> detailLeft > 0 && header == h
  }

  /** One line on: blank lines and frames leave the count, details lower it, a line no deeper than the header ends it. */
  lemma WindowMoves(v: Vocabulary, lines: seq<string>, eligible: seq<bool>, k: nat, header: nat, detailLeft: nat, framesLeft: int)
    requires k < |lines| == |eligible| && Window(v, lines, eligible, k, header, detailLeft, framesLeft)
    ensures v.blank(lines[k]) ==> Window(v, lines, eligible, k + 1, header, detailLeft, framesLeft)
    ensures !v.blank(lines[k]) && detailLeft > 0 && v.indent(lines[k]) > v.indent(lines[header]) ==>
      && Covers(v, lines, header, k) && !Opens(v, lines, eligible, k)
      && (v.frame(lines[k]) ==> Window(v, lines, eligible, k + 1, header, detailLeft, framesLeft - 1))
      && (!v.frame(lines[k]) ==> Window(v, lines, eligible, k + 1, header, detailLeft - 1, framesLeft))
    ensures !v.blank(lines[k]) && !(detailLeft > 0 && v.indent(lines[k]) > v.indent(lines[header])) ==>
      && (forall h :: 0 <= h < k && Opens(v, lines, eligible, h) ==> !Covers(v, lines, h, k))
      && (Opens(v, lines, eligible, k) <==> eligible[k] && v.failure(lines[k]))
      && (if eligible[k] && v.failure(lines[k]) then Window(v, lines, eligible, k + 1, k, 12, 3)
          else Window(v, lines, eligible, k + 1, header, 0, framesLeft))
  {
    forall h, n: nat | 0 <= h < k
      ensures Under(v, lines, h, k + 1, n) <==>
        && Under(v, lines, h, k, n) && (v.blank(lines[k]) || v.indent(lines[k]) > v.indent(lines[h]))
        && Details(v, lines, h + 1, k + 1) <= n
    {
    }
  }

  /**
   * No line gets a worse tier, and what a recognised runner ranked stays as it is; a failure line it
   * dropped takes the header tier, unless it is one of the details under an earlier failure line.
   */
  method ApplyFailureSafetyNet(v: Vocabulary, lines: seq<string>, tiers: array<Option<nat>>, recognised: bool)
    requires tiers.Length == |lines|
    modifies tiers
    ensures forall i :: 0 <= i < |lines| ==> Netted(v, lines, recognised, old(tiers[i]), tiers[i], i)
    ensures var eligible := seq(|lines|, i requires 0 <= i < |lines| => !recognised || old(tiers[..])[i].None?);
      forall i :: 0 <= i < |lines| ==> Placed(v, lines, eligible, recognised, old(tiers[i]), tiers[i], i)
  {
    var headerTier, detailTier := if recognised then 35 else FAILURE_TIER, if recognised then 36 else 20;
    var detailLeft: nat, framesLeft: int, headerIndent: int := 0, 0, -1;
    ghost var header: nat := 0;
    ghost var eligible := seq(|lines|, i requires 0 <= i < |lines| => !recognised || old(tiers[..])[i].None?);
    for index := 0 to |lines|
      invariant forall i :: index <= i < |lines| ==> tiers[i] == old(tiers[i])
      invariant forall i :: 0 <= i < index ==> Placed(v, lines, eligible, recognised, old(tiers[i]), tiers[i], i)
      invariant Window(v, lines, eligible, index, header, detailLeft, framesLeft)
      invariant detailLeft > 0 ==> headerIndent == v.indent(lines[header])
    {
      detailLeft, framesLeft, headerIndent, header := RankLine(
        v, lines, tiers, recognised, headerTier, detailTier, eligible, index, detailLeft, framesLeft, headerIndent, header);
    }
    PlacedAreNetted(v, lines, eligible, recognised, old(tiers[..]), tiers[..]);
  }

  /** The loop's body. */
  method RankLine(v: Vocabulary, lines: seq<string>, tiers: array<Option<nat>>, recognised: bool, headerTier: nat, detailTier: nat,
                  ghost eligible: seq<bool>, index: nat, detailBefore: nat, framesBefore: int, indentBefore: int, ghost headerBefore: nat)
    returns (detailLeft: nat, framesLeft: int, headerIndent: int, ghost header: nat)
    requires index < |lines| == tiers.Length == |eligible| && (eligible[index] <==> !recognised || tiers[index].None?)
    requires headerTier == (if recognised then 35 else FAILURE_TIER) && detailTier == if recognised then 36 else 20
    requires Window(v, lines, eligible, index, headerBefore, detailBefore, framesBefore)
    requires detailBefore > 0 ==> indentBefore == v.indent(lines[headerBefore])
    modifies tiers
    ensures Placed(v, lines, eligible, recognised, old(tiers[index]), tiers[index], index)
    ensures forall i :: 0 <= i < |lines| && i != index ==> tiers[i] == old(tiers[i])
    ensures Window(v, lines, eligible, index + 1, header, detailLeft, framesLeft)
    ensures detailLeft > 0 ==> headerIndent == v.indent(lines[header])
  {
    detailLeft, framesLeft, headerIndent, header := detailBefore, framesBefore, indentBefore, headerBefore;
    WindowMoves(v, lines, eligible, index, header, detailLeft, framesLeft);
    LinePlaced(v, lines, eligible, recognised, index, header, detailLeft, framesLeft, tiers[index]);
    var line := lines[index];
    if v.blank(line) {
      return;
    }
    var indent := v.indent(line);
    var eligibleLine := !recognised || tiers[index].None?;
    if detailLeft > 0 && indent > headerIndent {
      if v.frame(line) {
        if framesLeft > 0 && eligibleLine {
          tiers[index] := Raised(tiers[index], detailTier);
        }
        framesLeft := framesLeft - 1;
        return;
      }
      if eligibleLine {
        tiers[index] := Raised(tiers[index], detailTier);
      }
      detailLeft := detailLeft - 1;
      return;
    }
    detailLeft := 0;
    if !eligibleLine {
      return;
    }
    if v.failure(line) {
      tiers[index] := Raised(tiers[index], headerTier);
      header, headerIndent := index, indent;
      detailLeft, framesLeft := NET_DETAIL_CAP, FRAME_CAP;
    } else if v.count(line) {
      tiers[index] := Raised(tiers[index], 30);
    }
  }

  /** What the loop makes of the tier of line `k`. */
  ghost function TierAt(v: Vocabulary, lines: seq<string>, eligible: seq<bool>, recognised: bool, k: nat, header: nat,
                        detailLeft: nat, framesLeft: int, before: Option<nat>): Option<nat>
    requires k < |lines| == |eligible| && (detailLeft > 0 ==> header < |lines|)
  {
    if v.blank(lines[k]) || !eligible[k] then before
    else if detailLeft > 0 && v.indent(lines[k]) > v.indent(lines[header]) then
      if v.frame(lines[k]) && framesLeft <= 0 then before else Raised(before, if recognised then 36 else 20)
    else if v.failure(lines[k]) then Raised(before, if recognised then 35 else FAILURE_TIER)
    else if v.count(lines[k]) then Raised(before, 30)
    else before
  }

  lemma LinePlaced(v: Vocabulary, lines: seq<string>, eligible: seq<bool>, recognised: bool, k: nat, header: nat,
                   detailLeft: nat, framesLeft: int, before: Option<nat>)
    requires k < |lines| == |eligible| && Window(v, lines, eligible, k, header, detailLeft, framesLeft)
    ensures Placed(v, lines, eligible, recognised, before,
      TierAt(v, lines, eligible, recognised, k, header, detailLeft, framesLeft, before), k)
  {
    WindowMoves(v, lines, eligible, k, header, detailLeft, framesLeft);
  }

  lemma PlacedAreNetted(v: Vocabulary, lines: seq<string>, eligible: seq<bool>, recognised: bool, before: Tiers, after: Tiers)
    requires |before| == |after| == |lines| == |eligible|
    requires forall i :: 0 <= i < |lines| ==> (eligible[i] <==> !recognised || before[i].None?)
    requires forall i :: 0 <= i < |lines| ==> Placed(v, lines, eligible, recognised, before[i], after[i], i)
    ensures forall i :: 0 <= i < |lines| ==> Netted(v, lines, recognised, before[i], after[i], i)
  {
    forall i | 0 <= i < |lines|
      ensures Netted(v, lines, recognised, before[i], after[i], i)
    {
      PlacedIsNetted(v, lines, eligible, recognised, before[i], after[i], i);
    }
  }

  lemma PlacedIsNetted(v: Vocabulary, lines: seq<string>, eligible: seq<bool>, recognised: bool, before: Option<nat>,
                       after: Option<nat>, i: nat)
    requires i < |lines| == |eligible| && (eligible[i] <==> !recognised || before.None?)
    requires Placed(v, lines, eligible, recognised, before, after, i)
    ensures Netted(v, lines, recognised, before, after, i)
  {
    if h: nat :| 0 <= h < i && Opens(v, lines, eligible, h) && Covers(v, lines, h, i) {
      assert Under(v, lines, h, i, NET_DETAIL_CAP - 1);
    }
  }
}
