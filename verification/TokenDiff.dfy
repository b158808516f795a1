/**
 * The token diff of an edited Go function: which code tokens an edit removed and added
 * (`changedTokens`), and whether the edit only renames local names (`isRenameOnly`).
 */
module TokenDiff {
  import opened Wrappers

  datatype CodeToken = CodeToken(text: string, start: nat)

  datatype Changed = Changed(removed: seq<nat>, added: seq<nat>)

  /** An element of the dynamic-programming table: a store keeps the low 16 bits. */
  newtype uint16 = x: int | 0 <= x < 0x1_0000

  const TOKEN_DIFF_CELLS := 4_000_000

  function Texts(tokens: seq<CodeToken>): (texts: seq<string>)
    ensures |texts| == |tokens|
    ensures forall i :: 0 <= i < |tokens| ==> texts[i] == tokens[i].text
  {
    seq(|tokens|, i requires 0 <= i < |tokens| => tokens[i].text)
  }

  // ----- subsequences and the length of a longest common one

  /** `c` is `s` with some elements deleted. */
  ghost predicate IsSubseq<T>(c: seq<T>, s: seq<T>)
  {
    if c == [] then true
    else if s == [] then false
    else (c[0] == s[0] && IsSubseq(c[1..], s[1..])) || IsSubseq(c, s[1..])
  }

  function Max(x: nat, y: nat): nat {
    if x >= y then x else y
  }

  function Lcs<T(==)>(a: seq<T>, b: seq<T>): nat
    decreases |a| + |b|
  {
    if a == [] || b == [] then 0
    else if a[0] == b[0] then 1 + Lcs(a[1..], b[1..])
    else Max(Lcs(a[1..], b), Lcs(a, b[1..]))
  }

  lemma {:induction false} LcsAtMost<T>(a: seq<T>, b: seq<T>)
    ensures Lcs(a, b) <= |a| && Lcs(a, b) <= |b|
    decreases |a| + |b|
  {
    if a != [] && b != [] {
      LcsAtMost(a[1..], b[1..]);
      LcsAtMost(a[1..], b);
      LcsAtMost(a, b[1..]);
    }
  }

  /** Dropping the first element of one side loses at most one match. */
  lemma {:induction false} LcsDropOne<T>(a: seq<T>, b: seq<T>)
    ensures a != [] ==> Lcs(a[1..], b) <= Lcs(a, b) <= Lcs(a[1..], b) + 1
    ensures b != [] ==> Lcs(a, b[1..]) <= Lcs(a, b) <= Lcs(a, b[1..]) + 1
    decreases |a| + |b|
  {
    if a != [] && b != [] {
      LcsDropOne(a[1..], b);
      LcsDropOne(a, b[1..]);
      LcsDropOne(a[1..], b[1..]);
    }
  }

  /** Every common subsequence is at most as long as `Lcs` says. */
  lemma {:induction false} LcsBoundsCommonSubseq<T>(c: seq<T>, a: seq<T>, b: seq<T>)
    requires IsSubseq(c, a) && IsSubseq(c, b)
    ensures |c| <= Lcs(a, b)
    decreases |a| + |b|
  {
    if c == [] || a == [] || b == [] {
    } else if a[0] == b[0] {
      if c[0] == a[0] && IsSubseq(c[1..], a[1..]) && IsSubseq(c[1..], b[1..]) {
        LcsBoundsCommonSubseq(c[1..], a[1..], b[1..]);
      } else if IsSubseq(c, a[1..]) {
        LcsBoundsCommonSubseq(c, a[1..], b);
        LcsDropOne(a, b);
      } else {
        LcsBoundsCommonSubseq(c, a, b[1..]);
        LcsDropOne(a, b);
      }
    } else if IsSubseq(c, a[1..]) {
      LcsBoundsCommonSubseq(c, a[1..], b);
    } else {
      LcsBoundsCommonSubseq(c, a, b[1..]);
    }
  }

  /** A common last element belongs to a longest common subsequence. */
  lemma {:induction false} LcsCommonLast<T>(a: seq<T>, b: seq<T>, x: T)
    ensures Lcs(a + [x], b + [x]) == Lcs(a, b) + 1
    decreases |a| + |b|
  {
    var ax, bx := a + [x], b + [x];
    if a != [] {
      assert ax[1..] == a[1..] + [x];
    }
    if b != [] {
      assert bx[1..] == b[1..] + [x];
    }
    if a == [] && b == [] {
      assert ax[1..] == [] && bx[1..] == [];
    } else if a == [] {
      LcsCommonLast(a, b[1..], x);
      assert ax[1..] == [];
    } else if b == [] {
      LcsCommonLast(a[1..], b, x);
      assert bx[1..] == [];
    } else if a[0] == b[0] {
      LcsCommonLast(a[1..], b[1..], x);
    } else {
      LcsCommonLast(a[1..], b, x);
      LcsCommonLast(a, b[1..], x);
    }
  }

  /** Trimming a common head and a common tail loses nothing. */
  lemma {:induction false} LcsTrimmed<T>(head: seq<T>, a: seq<T>, b: seq<T>, tail: seq<T>)
    ensures Lcs(head + a + tail, head + b + tail) == |head| + Lcs(a, b) + |tail|
    decreases |head| + |tail|
  {
    if head != [] {
      assert (head + a + tail)[1..] == head[1..] + a + tail;
      assert (head + b + tail)[1..] == head[1..] + b + tail;
      LcsTrimmed(head[1..], a, b, tail);
    } else if tail != [] {
      var rest, last := tail[..|tail| - 1], tail[|tail| - 1];
      assert head + a + tail == (head + a + rest) + [last];
      assert head + b + tail == (head + b + rest) + [last];
      LcsCommonLast(head + a + rest, head + b + rest, last);
      LcsTrimmed(head, a, b, rest);
    } else {
      assert head + a + tail == a && head + b + tail == b;
    }
  }

  // ----- deleting by index

  /** The elements of `s` at the positions `lo..hi` that `drop` does not list. */
  function Kept<T>(s: seq<T>, drop: seq<nat>, lo: nat, hi: nat): seq<T>
    requires lo <= hi <= |s|
    decreases hi
  {
    if lo == hi then [] else Kept(s, drop, lo, hi - 1) + (if hi - 1 in drop then [] else [s[hi - 1]])
  }

  /** `s` without the elements at the positions `drop` lists. */
  function Without<T>(s: seq<T>, drop: seq<nat>): seq<T> {
    Kept(s, drop, 0, |s|)
  }

  lemma {:induction false} KeptIgnoresOutside<T>(s: seq<T>, drop: seq<nat>, more: nat, lo: nat, hi: nat)
    requires lo <= hi <= |s| && (more < lo || hi <= more)
    ensures Kept(s, drop + [more], lo, hi) == Kept(s, drop, lo, hi)
    decreases hi
  {
    if lo < hi {
      KeptIgnoresOutside(s, drop, more, lo, hi - 1);
    }
  }

  lemma {:induction false} KeptAll<T>(s: seq<T>, drop: seq<nat>, lo: nat, hi: nat)
    requires lo <= hi <= |s| && forall k :: lo <= k < hi ==> k !in drop
    ensures Kept(s, drop, lo, hi) == s[lo..hi]
    decreases hi
  {
    if lo < hi {
      KeptAll(s, drop, lo, hi - 1);
    }
  }

  lemma {:induction false} KeptSplit<T>(s: seq<T>, drop: seq<nat>, lo: nat, mid: nat, hi: nat)
    requires lo <= mid <= hi <= |s|
    ensures Kept(s, drop, lo, hi) == Kept(s, drop, lo, mid) + Kept(s, drop, mid, hi)
    decreases hi
  {
    if mid < hi {
      KeptSplit(s, drop, lo, mid, hi - 1);
    }
  }

  lemma {:induction false} KeptNone<T>(s: seq<T>, drop: seq<nat>, lo: nat, hi: nat)
    requires lo <= hi <= |s| && forall k :: lo <= k < hi ==> k in drop
    ensures Kept(s, drop, lo, hi) == []
    decreases hi
  {
    if lo < hi {
      KeptNone(s, drop, lo, hi - 1);
    }
  }

  /** Deleting by index leaves a subsequence. */
  lemma {:induction false} WithoutIsSubseq<T>(s: seq<T>, drop: seq<nat>, lo: nat)
    requires lo <= |s|
    ensures IsSubseq(Kept(s, drop, lo, |s|), s[lo..])
    decreases |s| - lo
  {
    if lo < |s| {
      KeptSplit(s, drop, lo, lo + 1, |s|);
      WithoutIsSubseq(s, drop, lo + 1);
      KeptOne(s, drop, lo);
      SubseqCons(s[lo..], Kept(s, drop, lo + 1, |s|), lo in drop);
      assert s[lo..][1..] == s[lo + 1..];
    }
  }

  lemma KeptOne<T>(s: seq<T>, drop: seq<nat>, lo: nat)
    requires lo < |s|
    ensures Kept(s, drop, lo, lo + 1) == if lo in drop then [] else [s[lo]]
  {
  }

  lemma SubseqCons<T>(s: seq<T>, rest: seq<T>, dropped: bool)
    requires s != [] && IsSubseq(rest, s[1..])
    ensures IsSubseq((if dropped then [] else [s[0]]) + rest, s)
  {
    var c := (if dropped then [] else [s[0]]) + rest;
    if dropped {
      assert c == rest;
    } else {
      assert c[1..] == rest;
    }
  }

  ghost predicate Ascending(s: seq<nat>, lo: nat, hi: nat) {
    && (forall i :: 0 <= i < |s| ==> lo <= s[i] < hi)
    && forall i, j :: 0 <= i < j < |s| ==> s[i] < s[j]
  }

  // ----- the trimmed middle

  /** How many leading elements `a` and `b` share. */
  function CommonHead<T(==)>(a: seq<T>, b: seq<T>): (n: nat)
    ensures n <= |a| && n <= |b| && a[..n] == b[..n]
  {
    if a == [] || b == [] || a[0] != b[0] then 0 else 1 + CommonHead(a[1..], b[1..])
  }

  lemma {:induction false} CommonHeadIs<T>(a: seq<T>, b: seq<T>, n: nat)
    requires n <= |a| && n <= |b| && a[..n] == b[..n]
    requires n == |a| || n == |b| || a[n] != b[n]
    ensures CommonHead(a, b) == n
  {
    if n > 0 {
      assert a[0] == a[..n][0] == b[..n][0] == b[0];
      assert a[1..][..n - 1] == a[..n][1..] == b[..n][1..] == b[1..][..n - 1];
      CommonHeadIs(a[1..], b[1..], n - 1);
    }
  }

  /** How many trailing elements `a` and `b` share. */
  function CommonTail<T(==)>(a: seq<T>, b: seq<T>): (n: nat)
    ensures n <= |a| && n <= |b|
    decreases |a|
  {
    if a == [] || b == [] || a[|a| - 1] != b[|b| - 1] then 0 else 1 + CommonTail(a[..|a| - 1], b[..|b| - 1])
  }

  lemma {:induction false} CommonTailIs<T>(a: seq<T>, b: seq<T>, n: nat)
    requires n <= |a| && n <= |b|
    requires a[|a| - n..] == b[|b| - n..]
    requires n == |a| || n == |b| || a[|a| - 1 - n] != b[|b| - 1 - n]
    ensures CommonTail(a, b) == n
    decreases n
  {
    if n > 0 {
      assert a[|a| - 1] == a[|a| - n..][n - 1] == b[|b| - n..][n - 1] == b[|b| - 1];
      var a', b' := a[..|a| - 1], b[..|b| - 1];
      assert a'[|a'| - (n - 1)..] == a[|a| - n..][..n - 1] == b[|b| - n..][..n - 1] == b'[|b'| - (n - 1)..];
      CommonTailIs(a', b', n - 1);
    }
  }

  /** The numbers of differing tokens left on each side after trimming. */
  function Middle(before: seq<string>, after: seq<string>): (nat, nat) {
    var head := CommonHead(before, after);
    var tail := CommonTail(before[head..], after[head..]);
    (|before| - head - tail, |after| - head - tail)
  }

  lemma TrimmedMiddle(x: seq<string>, y: seq<string>, head: nat, tail: nat)
    requires head + tail <= |x| && head + tail <= |y|
    requires x[..head] == y[..head] && x[|x| - tail..] == y[|y| - tail..]
    requires head == |x| || head == |y| || x[head] != y[head]
    requires head + tail == |x| || head + tail == |y| || x[|x| - 1 - tail] != y[|y| - 1 - tail]
    ensures Middle(x, y) == (|x| - head - tail, |y| - head - tail)
  {
    CommonHeadIs(x, y, head);
    var x', y' := x[head..], y[head..];
    assert x'[|x'| - tail..] == x[|x| - tail..] && y'[|y'| - tail..] == y[|y| - tail..];
    CommonTailIs(x', y', tail);
  }

  ghost predicate TooLarge(before: seq<string>, after: seq<string>) {
    Middle(before, after).0 * Middle(before, after).1 > TOKEN_DIFF_CELLS
  }

  lemma MiddleCells(x: seq<string>, y: seq<string>, head: nat, tail: nat, m: nat, n: nat)
    requires head + m + tail == |x| && head + n + tail == |y|
    requires x[..head] == y[..head] && x[|x| - tail..] == y[|y| - tail..]
    requires head == |x| || head == |y| || x[head] != y[head]
    requires head + tail == |x| || head + tail == |y| || x[|x| - 1 - tail] != y[|y| - 1 - tail]
    ensures TooLarge(x, y) <==> m * n > 4_000_000
    ensures m == 0 || n == 0 ==> !TooLarge(x, y)
    ensures x[head + m..] == y[head + n..] && |x| - m == |y| - n
  {
    TrimmedMiddle(x, y, head, tail);
    assert |x| - tail == head + m && |y| - tail == head + n;
  }

  // ----- the table

  function Cell(i: nat, j: nat, width: nat): nat {
    i * width + j
  }

  lemma CellBound(i: nat, j: nat, rows: nat, width: nat)
    requires i < rows && j < width
    ensures Cell(i, j, width) < rows * width
  {
    assert (i + 1) * width <= rows * width;
  }

  lemma CellsDiffer(i: nat, j: nat, i': nat, j': nat, width: nat)
    requires j < width && j' < width && (i != i' || j != j')
    ensures Cell(i, j, width) != Cell(i', j', width)
  {
    if i < i' {
      assert (i + 1) * width <= i' * width;
    } else if i' < i {
      assert (i' + 1) * width <= i * width;
    }
  }

  /** The cell guard leaves no table entry that 16 bits cannot hold. */
  lemma GuardFitsUint16(m: nat, n: nat)
    requires m * n <= TOKEN_DIFF_CELLS
    ensures m <= 2000 || n <= 2000
  {
    if m > 2000 {
      assert 2001 * n <= m * n;
    }
  }

  /** The table's entry in row `i` and column `j`; 0 outside the table. */
  ghost function At(common: seq<uint16>, i: nat, j: nat, width: nat): nat {
    if Cell(i, j, width) < |common| then common[Cell(i, j, width)] as nat else 0
  }

  ghost function Entry(common: seq<uint16>, a: seq<string>, b: seq<string>, i: nat, j: nat): nat
    requires i < |a| && j < |b|
  {
    if a[i] == b[j] then At(common, i + 1, j + 1, |b| + 1) + 1
    else Max(At(common, i + 1, j, |b| + 1), At(common, i, j + 1, |b| + 1))
  }

  /** Row `i'`, column `j'` holds its final value once the loops have reached row `i`, column `j`. */
  ghost predicate Done(i': nat, j': nat, i: nat, j: nat, columns: nat) {
    i' > i || (i' == i && j' >= j) || j' == columns
  }

  ghost predicate Filled(common: seq<uint16>, a: seq<string>, b: seq<string>, i: nat, j: nat) {
    forall i', j' :: 0 <= i' <= |a| && 0 <= j' <= |b| && Done(i', j', i, j, |b|) ==>
      At(common, i', j', |b| + 1) == Lcs(a[i'..], b[j'..])
  }

  lemma EmptyTableFilled(common: seq<uint16>, a: seq<string>, b: seq<string>)
    requires forall k :: 0 <= k < |common| ==> common[k] == 0
    ensures Filled(common, a, b, |a|, 0)
  {
  }

  lemma CellsInTable(size: nat, i: nat, j: nat, rows: nat, width: nat)
    requires i < rows && j + 1 < width && size == (rows + 1) * width
    ensures Cell(i, j, width) < size && Cell(i, j + 1, width) < size
    ensures Cell(i + 1, j, width) < size && Cell(i + 1, j + 1, width) < size
  {
    CellBound(i, j, rows + 1, width);
    CellBound(i, j + 1, rows + 1, width);
    CellBound(i + 1, j, rows + 1, width);
    CellBound(i + 1, j + 1, rows + 1, width);
  }

  /** The recurrence the table's inner loop evaluates. */
  lemma LcsStep(a: seq<string>, b: seq<string>, i: nat, j: nat)
    requires i < |a| && j < |b|
    ensures Lcs(a[i..], b[j..]) ==
            if a[i] == b[j] then 1 + Lcs(a[i + 1..], b[j + 1..])
            else Max(Lcs(a[i + 1..], b[j..]), Lcs(a[i..], b[j + 1..]))
  {
    assert a[i..][1..] == a[i + 1..] && b[j..][1..] == b[j + 1..];
  }

  /** The entry the loop computes is exact, and survives the store into 16 bits. */
  lemma EntryIsExact(common: seq<uint16>, a: seq<string>, b: seq<string>, i: nat, j: nat)
    requires i < |a| && j < |b| && |a| * |b| <= TOKEN_DIFF_CELLS
    requires Filled(common, a, b, i, j + 1)
    ensures Entry(common, a, b, i, j) == Lcs(a[i..], b[j..]) < 0x1_0000
  {
    LcsStep(a, b, i, j);
    LcsAtMost(a[i..], b[j..]);
    GuardFitsUint16(|a|, |b|);
    assert At(common, i + 1, j + 1, |b| + 1) == Lcs(a[i + 1..], b[j + 1..]);
    assert At(common, i + 1, j, |b| + 1) == Lcs(a[i + 1..], b[j..]);
    assert At(common, i, j + 1, |b| + 1) == Lcs(a[i..], b[j + 1..]);
  }

  lemma StoreKeepsFilled(common: seq<uint16>, a: seq<string>, b: seq<string>, i: nat, j: nat, entry: uint16)
    requires i < |a| && j < |b| && |common| == (|a| + 1) * (|b| + 1)
    requires Filled(common, a, b, i, j + 1) && entry as nat == Lcs(a[i..], b[j..])
    ensures Cell(i, j, |b| + 1) < |common|
    ensures Filled(common[Cell(i, j, |b| + 1) := entry], a, b, i, j)
  {
    var width := |b| + 1;
    CellBound(i, j, |a| + 1, width);
    var now := common[Cell(i, j, width) := entry];
    forall i', j' | 0 <= i' <= |a| && 0 <= j' <= |b| && Done(i', j', i, j, |b|)
      ensures At(now, i', j', width) == Lcs(a[i'..], b[j'..])
    {
      if i' != i || j' != j {
        CellBound(i', j', |a| + 1, width);
        CellsDiffer(i, j, i', j', width);
        assert At(common, i', j', width) == Lcs(a[i'..], b[j'..]);
      }
    }
  }

  method FillTable(a: seq<string>, b: seq<string>) returns (common: array<uint16>)
    requires |a| * |b| <= TOKEN_DIFF_CELLS
    ensures common.Length == (|a| + 1) * (|b| + 1) && Filled(common[..], a, b, 0, 0)
  {
    var width := |b| + 1;
    common := new uint16[(|a| + 1) * width](_ => 0);
    var i := |a|;
    EmptyTableFilled(common[..], a, b);
    while i > 0
      invariant 0 <= i <= |a|
      invariant common.Length == (|a| + 1) * width
      invariant Filled(common[..], a, b, i, 0)
    {
      i := i - 1;
      var j := |b|;
      assert Filled(common[..], a, b, i, j);
      while j > 0
        invariant 0 <= j <= |b|
        invariant common.Length == (|a| + 1) * width
        invariant Filled(common[..], a, b, i, j)
      {
        j := j - 1;
        ghost var was := common[..];
        CellsInTable(common.Length, i, j, |a|, width);
        EntryIsExact(was, a, b, i, j);
        var entry :=
          if a[i] == b[j] then common[Cell(i + 1, j + 1, width)] as nat + 1
          else Max(common[Cell(i + 1, j, width)] as nat, common[Cell(i, j + 1, width)] as nat);
        assert entry == Entry(was, a, b, i, j);
        StoreKeepsFilled(was, a, b, i, j, (entry % 0x1_0000) as uint16);
        common[Cell(i, j, width)] := (entry % 0x1_0000) as uint16;
        assert common[..] == was[Cell(i, j, width) := (entry % 0x1_0000) as uint16];
      }
    }
  }

  function Range(from: nat, count: nat): (r: seq<nat>)
    ensures Ascending(r, from, from + count) && |r| == count
    ensures forall k :: from <= k < from + count ==> k in r
  {
    if count == 0 then [] else Range(from, count - 1) + [from + count - 1]
  }

  /** What `changedTokens` promises: deleting the indexes leaves one longest common subsequence of the whole inputs. */
  ghost predicate MinimalDiff(before: seq<string>, after: seq<string>, changed: Changed) {
    && Ascending(changed.removed, 0, |before|)
    && Ascending(changed.added, 0, |after|)
    && Without(before, changed.removed) == Without(after, changed.added)
    && |Without(before, changed.removed)| == Lcs(before, after)
  }

  /** No pair of deletions that leaves equal texts deletes less. */
  lemma MinimalDiffDeletesLeast(before: seq<string>, after: seq<string>, changed: Changed, other: Changed)
    requires MinimalDiff(before, after, changed)
    requires Without(before, other.removed) == Without(after, other.added)
    ensures |Without(before, other.removed)| <= |Without(before, changed.removed)|
    ensures forall c :: IsSubseq(c, before) && IsSubseq(c, after) ==> |c| <= |Without(before, changed.removed)|
    ensures IsSubseq(Without(before, changed.removed), before) && IsSubseq(Without(before, changed.removed), after)
  {
    WithoutIsSubseq(before, other.removed, 0);
    WithoutIsSubseq(after, other.added, 0);
    WithoutIsSubseq(before, changed.removed, 0);
    WithoutIsSubseq(after, changed.added, 0);
    assert before[0..] == before && after[0..] == after;
    LcsBoundsCommonSubseq(Without(before, other.removed), before, after);
    forall c | IsSubseq(c, before) && IsSubseq(c, after)
      ensures |c| <= Lcs(before, after)
    {
      LcsBoundsCommonSubseq(c, before, after);
    }
  }

  lemma WithoutMiddle(s: seq<string>, drop: seq<nat>, head: nat, m: nat)
    requires head + m <= |s| && Ascending(drop, head, head + m)
    ensures Without(s, drop) == s[..head] + Kept(s, drop, head, head + m) + s[head + m..]
  {
    KeptSplit(s, drop, 0, head, |s|);
    KeptSplit(s, drop, head, head + m, |s|);
    KeptAll(s, drop, 0, head);
    KeptAll(s, drop, head + m, |s|);
    assert s[0..head] == s[..head] && s[head + m..|s|] == s[head + m..];
    Reassociate(s[..head], Kept(s, drop, head, head + m), s[head + m..]);
  }

  lemma Reassociate(x: seq<string>, y: seq<string>, z: seq<string>)
    ensures x + (y + z) == x + y + z
  {
  }

  /** A diff of the trimmed middle, shifted by the head, is a diff of the whole inputs. */
  lemma MiddleDiffIsDiff(x: seq<string>, y: seq<string>, head: nat, m: nat, n: nat, changed: Changed)
    requires head + m <= |x| && head + n <= |y| && |x| - m == |y| - n
    requires x[..head] == y[..head] && x[head + m..] == y[head + n..]
    requires Ascending(changed.removed, head, head + m) && Ascending(changed.added, head, head + n)
    requires Kept(x, changed.removed, head, head + m) == Kept(y, changed.added, head, head + n)
    requires |Kept(x, changed.removed, head, head + m)| == Lcs(x[head..head + m], y[head..head + n])
    ensures MinimalDiff(x, y, changed)
  {
    WithoutMiddle(x, changed.removed, head, m);
    WithoutMiddle(y, changed.added, head, n);
    assert x == x[..head] + x[head..head + m] + x[head + m..];
    assert y == x[..head] + y[head..head + n] + x[head + m..];
    LcsTrimmed(x[..head], x[head..head + m], y[head..head + n], x[head + m..]);
  }

  /** The walk stands at row `i`, column `j`: what it kept so far, and what the rest of the table still offers. */
  ghost predicate Walked(x: seq<string>, y: seq<string>, head: nat, a: seq<string>, b: seq<string>,
                         changed: Changed, i: nat, j: nat)
  {
    && head + |a| <= |x| && a == x[head..head + |a|] && i <= |a|
    && head + |b| <= |y| && b == y[head..head + |b|] && j <= |b|
    && Ascending(changed.removed, head, head + i)
    && Ascending(changed.added, head, head + j)
    && Kept(x, changed.removed, head, head + i) == Kept(y, changed.added, head, head + j)
    && |Kept(x, changed.removed, head, head + i)| + Lcs(a[i..], b[j..]) == Lcs(a, b)
  }

  lemma WalkKeeps(x: seq<string>, y: seq<string>, head: nat, a: seq<string>, b: seq<string>, changed: Changed, i: nat, j: nat)
    requires Walked(x, y, head, a, b, changed, i, j) && i < |a| && j < |b| && a[i] == b[j]
    ensures Walked(x, y, head, a, b, changed, i + 1, j + 1)
  {
    LcsStep(a, b, i, j);
    assert x[head + i] == y[head + j];
  }

  lemma WalkAdds(x: seq<string>, y: seq<string>, head: nat, a: seq<string>, b: seq<string>, changed: Changed, i: nat, j: nat)
    requires Walked(x, y, head, a, b, changed, i, j) && j < |b|
    requires i == |a| || Lcs(a[i..], b[j..]) == Lcs(a[i..], b[j + 1..])
    ensures Walked(x, y, head, a, b, changed.(added := changed.added + [head + j]), i, j + 1)
  {
    KeptIgnoresOutside(y, changed.added, head + j, head, head + j);
  }

  lemma WalkRemoves(x: seq<string>, y: seq<string>, head: nat, a: seq<string>, b: seq<string>, changed: Changed, i: nat, j: nat)
    requires Walked(x, y, head, a, b, changed, i, j) && i < |a|
    requires j == |b| || Lcs(a[i..], b[j..]) == Lcs(a[i + 1..], b[j..])
    ensures Walked(x, y, head, a, b, changed.(removed := changed.removed + [head + i]), i + 1, j)
  {
    KeptIgnoresOutside(x, changed.removed, head + i, head, head + i);
  }

  /** Comparing two table entries tells which side may lose its token. */
  lemma TableDecides(table: seq<uint16>, a: seq<string>, b: seq<string>, i: nat, j: nat)
    requires i < |a| && j < |b| && |table| == (|a| + 1) * (|b| + 1) && Filled(table, a, b, 0, 0)
    ensures Cell(i, j + 1, |b| + 1) < |table| && Cell(i + 1, j, |b| + 1) < |table|
    ensures a[i] != b[j] ==>
      if table[Cell(i, j + 1, |b| + 1)] >= table[Cell(i + 1, j, |b| + 1)] then Lcs(a[i..], b[j..]) == Lcs(a[i..], b[j + 1..])
      else Lcs(a[i..], b[j..]) == Lcs(a[i + 1..], b[j..])
  {
    CellsInTable(|table|, i, j, |a|, |b| + 1);
    LcsStep(a, b, i, j);
    assert At(table, i, j + 1, |b| + 1) == Lcs(a[i..], b[j + 1..]);
    assert At(table, i + 1, j, |b| + 1) == Lcs(a[i + 1..], b[j..]);
  }

  /** The greedy walk through the table, from its top left corner. */
  method Traceback(ghost x: seq<string>, ghost y: seq<string>, head: nat, a: seq<string>, b: seq<string>, common: array<uint16>)
    returns (changed: Changed)
    requires head + |a| <= |x| && a == x[head..head + |a|]
    requires head + |b| <= |y| && b == y[head..head + |b|]
    requires common.Length == (|a| + 1) * (|b| + 1) && Filled(common[..], a, b, 0, 0)
    ensures Walked(x, y, head, a, b, changed, |a|, |b|)
  {
    var width := |b| + 1;
    var removed: seq<nat>, added: seq<nat> := [], [];
    var i, j := 0, 0;
    ghost var table := common[..];
    assert a[0..] == a && b[0..] == b;
    while i < |a| || j < |b|
      invariant Walked(x, y, head, a, b, Changed(removed, added), i, j)
      decreases |a| - i + |b| - j
    {
      if i < |a| && j < |b| {
        TableDecides(table, a, b, i, j);
      }
      if i < |a| && j < |b| && a[i] == b[j] {
        WalkKeeps(x, y, head, a, b, Changed(removed, added), i, j);
        i, j := i + 1, j + 1;
      } else if j < |b| && (i == |a| || common[Cell(i, j + 1, width)] >= common[Cell(i + 1, j, width)]) {
        WalkAdds(x, y, head, a, b, Changed(removed, added), i, j);
        added := added + [head + j];
        j := j + 1;
      } else {
        WalkRemoves(x, y, head, a, b, Changed(removed, added), i, j);
        removed := removed + [head + i];
        i := i + 1;
      }
    }
    changed := Changed(removed, added);
  }

  lemma LongerHead(x: seq<string>, y: seq<string>, head: nat)
    requires head < |x| && head < |y| && x[..head] == y[..head] && x[head] == y[head]
    ensures x[..head + 1] == y[..head + 1]
  {
    assert x[..head + 1] == x[..head] + [x[head]];
  }

  lemma LongerTail(x: seq<string>, y: seq<string>, tail: nat)
    requires tail < |x| && tail < |y| && x[|x| - tail..] == y[|y| - tail..]
    requires x[|x| - 1 - tail] == y[|y| - 1 - tail]
    ensures x[|x| - tail - 1..] == y[|y| - tail - 1..]
  {
    assert x[|x| - tail - 1..] == [x[|x| - 1 - tail]] + x[|x| - tail..];
    assert y[|y| - tail - 1..] == [y[|y| - 1 - tail]] + y[|y| - tail..];
  }

  method TrimHead(before: seq<CodeToken>, after: seq<CodeToken>) returns (head: nat)
    ensures head <= |before| && head <= |after|
    ensures Texts(before)[..head] == Texts(after)[..head]
    ensures head == |before| || head == |after| || Texts(before)[head] != Texts(after)[head]
  {
    head := 0;
    while head < |before| && head < |after| && before[head].text == after[head].text
      invariant 0 <= head <= |before| && head <= |after|
      invariant Texts(before)[..head] == Texts(after)[..head]
    {
      LongerHead(Texts(before), Texts(after), head);
      head := head + 1;
    }
  }

  method TrimTail(before: seq<CodeToken>, after: seq<CodeToken>, head: nat) returns (tail: nat)
    requires head <= |before| && head <= |after|
    ensures head + tail <= |before| && head + tail <= |after|
    ensures Texts(before)[|before| - tail..] == Texts(after)[|after| - tail..]
    ensures
      head + tail == |before| || head + tail == |after|
      || Texts(before)[|before| - 1 - tail] != Texts(after)[|after| - 1 - tail]
  {
    tail := 0;
    while tail < |before| - head && tail < |after| - head
      && before[|before| - 1 - tail].text == after[|after| - 1 - tail].text
      invariant head + tail <= |before| && head + tail <= |after|
      invariant Texts(before)[|before| - tail..] == Texts(after)[|after| - tail..]
    {
      LongerTail(Texts(before), Texts(after), tail);
      tail := tail + 1;
    }
  }

  /** One side of the middle is empty: all of the other side changed. */
  lemma EmptyMiddle(x: seq<string>, y: seq<string>, head: nat, m: nat, n: nat)
    requires m == 0 || n == 0
    requires head + m <= |x| && head + n <= |y| && |x| - m == |y| - n
    requires x[..head] == y[..head] && x[head + m..] == y[head + n..]
    ensures MinimalDiff(x, y, Changed(Range(head, m), Range(head, n)))
  {
    RangeKeepsNone(x, head, m);
    RangeKeepsNone(y, head, n);
    NothingKept(x, y, head, m, n, Changed(Range(head, m), Range(head, n)));
  }

  lemma RangeKeepsNone(s: seq<string>, head: nat, m: nat)
    requires head + m <= |s|
    ensures Ascending(Range(head, m), head, head + m) && Kept(s, Range(head, m), head, head + m) == []
  {
    var range := Range(head, m);
    KeptNone(s, range, head, head + m);
  }

  lemma NothingKept(x: seq<string>, y: seq<string>, head: nat, m: nat, n: nat, changed: Changed)
    requires m == 0 || n == 0
    requires head + m <= |x| && head + n <= |y| && |x| - m == |y| - n
    requires x[..head] == y[..head] && x[head + m..] == y[head + n..]
    requires Ascending(changed.removed, head, head + m) && Kept(x, changed.removed, head, head + m) == []
    requires Ascending(changed.added, head, head + n) && Kept(y, changed.added, head, head + n) == []
    ensures MinimalDiff(x, y, changed)
  {
    assert Lcs(x[head..head + m], y[head..head + n]) == 0;
    MiddleDiffIsDiff(x, y, head, m, n, changed);
  }

  lemma TextsOfSlice(tokens: seq<CodeToken>, lo: nat, hi: nat)
    requires lo <= hi <= |tokens|
    ensures Texts(tokens[lo..hi]) == Texts(tokens)[lo..hi]
  {
  }

  /** The trimmed inputs are what `CompareMiddles` expects. */
  lemma MiddlesFit(before: seq<CodeToken>, after: seq<CodeToken>, head: nat, tail: nat, a: seq<string>, b: seq<string>)
    requires head + tail <= |before| && head + tail <= |after|
    requires Texts(before)[..head] == Texts(after)[..head]
    requires Texts(before)[|before| - tail..] == Texts(after)[|after| - tail..]
    requires head == |before| || head == |after| || Texts(before)[head] != Texts(after)[head]
    requires head + tail == |before| || head + tail == |after|
             || Texts(before)[|before| - 1 - tail] != Texts(after)[|after| - 1 - tail]
    requires a == Texts(before[head..|before| - tail]) && b == Texts(after[head..|after| - tail])
    ensures head + |a| <= |before| && head + |b| <= |after| && |before| - |a| == |after| - |b|
    ensures a == Texts(before)[head..head + |a|] && b == Texts(after)[head..head + |b|]
    ensures Texts(before)[head + |a|..] == Texts(after)[head + |b|..]
    ensures TooLarge(Texts(before), Texts(after)) <==> |a| > 0 && |b| > 0 && |a| * |b| > TOKEN_DIFF_CELLS
  {
    TextsOfSlice(before, head, |before| - tail);
    TextsOfSlice(after, head, |after| - tail);
    SameMiddles(Texts(before), Texts(after), head, tail, a, b);
  }

  lemma SameMiddles(x: seq<string>, y: seq<string>, head: nat, tail: nat, a: seq<string>, b: seq<string>)
    requires head + tail <= |x| && head + tail <= |y|
    requires x[..head] == y[..head] && x[|x| - tail..] == y[|y| - tail..]
    requires head == |x| || head == |y| || x[head] != y[head]
    requires head + tail == |x| || head + tail == |y| || x[|x| - 1 - tail] != y[|y| - 1 - tail]
    requires a == x[head..|x| - tail] && b == y[head..|y| - tail]
    ensures head + |a| <= |x| && head + |b| <= |y| && |x| - |a| == |y| - |b|
    ensures a == x[head..head + |a|] && b == y[head..head + |b|] && x[head + |a|..] == y[head + |b|..]
    ensures TooLarge(x, y) <==> |a| > 0 && |b| > 0 && |a| * |b| > TOKEN_DIFF_CELLS
  {
    MiddleCells(x, y, head, tail, |a|, |b|);
  }

  /** The comparison of the differing middles `a` and `b`, `undefined` when their table would be too large. */
  method CompareMiddles(ghost x: seq<string>, ghost y: seq<string>, head: nat, a: seq<string>, b: seq<string>)
    returns (changed: Option<Changed>)
    requires head + |a| <= |x| && a == x[head..head + |a|]
    requires head + |b| <= |y| && b == y[head..head + |b|]
    requires |x| - |a| == |y| - |b| && x[..head] == y[..head] && x[head + |a|..] == y[head + |b|..]
    ensures changed.None? <==> |a| > 0 && |b| > 0 && |a| * |b| > TOKEN_DIFF_CELLS
    ensures changed.Some? ==> MinimalDiff(x, y, changed.value)
  {
    if |a| == 0 || |b| == 0 {
      EmptyMiddle(x, y, head, |a|, |b|);
      return Some(Changed(Range(head, |a|), Range(head, |b|)));
    }
    if |a| * |b| > TOKEN_DIFF_CELLS {
      return None;
    }
    var common := FillTable(a, b);
    var middle := Traceback(x, y, head, a, b, common);
    MiddleDiffIsDiff(x, y, head, |a|, |b|, middle);
    return Some(middle);
  }

  method ChangedTokens(before: seq<CodeToken>, after: seq<CodeToken>) returns (changed: Option<Changed>)
    ensures changed.None? <==> TooLarge(Texts(before), Texts(after))
    ensures changed.Some? ==> MinimalDiff(Texts(before), Texts(after), changed.value)
  {
    var head := TrimHead(before, after);
    var tail := TrimTail(before, after, head);
    var a, b := Texts(before[head..|before| - tail]), Texts(after[head..|after| - tail]);
    MiddlesFit(before, after, head, tail, a, b);
    changed := CompareMiddles(Texts(before), Texts(after), head, a, b);
  }

  // ----- an edit that only renames

  /** The parts of a function's watch detail that the renaming test reads. */
  datatype WatchDetail = WatchDetail(tokens: seq<CodeToken>, declared: set<string>)

  /** `after` is `before` with the declared names of `renamed` replaced, everywhere, by distinct unused names. */
  ghost predicate ConsistentRenaming(before: seq<string>, after: seq<string>, declared: set<string>,
                                     goName: string -> bool, renamed: map<string, string>)
  {
    && renamed != map[]
    && |before| == |after|
    && (forall k :: 0 <= k < |before| ==> after[k] == if before[k] in renamed then renamed[before[k]] else before[k])
    && (forall from :: from in renamed ==>
          && from in before && from in declared && goName(from)
          && goName(renamed[from]) && renamed[from] !in before)
    && forall p, q :: p in renamed && q in renamed && renamed[p] == renamed[q] ==> p == q
  }

  /** What the loop has collected after `n` tokens: exactly the differing pairs. */
  ghost predicate Collected(before: seq<string>, after: seq<string>, goName: string -> bool, renamed: map<string, string>, n: nat)
    requires n <= |before| == |after|
  {
    && (forall k :: 0 <= k < n && before[k] != after[k] ==> before[k] in renamed && renamed[before[k]] == after[k])
    && (forall from :: from in renamed ==> from in before && goName(from) && goName(renamed[from]))
    && (forall from :: from in renamed ==> renamed[from] != from)
    && forall from :: from in renamed ==> exists k :: 0 <= k < n && before[k] == from && after[k] == renamed[from]
  }

  /** Whatever renaming explains the edit contains what the loop collected. */
  lemma CollectedIsForced(before: seq<string>, after: seq<string>, declared: set<string>, goName: string -> bool,
                          renamed: map<string, string>, n: nat, other: map<string, string>)
    requires n <= |before| == |after| && Collected(before, after, goName, renamed, n)
    requires ConsistentRenaming(before, after, declared, goName, other)
    ensures forall from :: from in renamed ==> from in other && other[from] == renamed[from]
    ensures n == |before| ==> renamed == other
  {
    forall from | from in renamed
      ensures from in other && other[from] == renamed[from]
    {
      var k :| 0 <= k < n && before[k] == from && after[k] == renamed[from];
    }
    if n == |before| {
      forall from | from in other
        ensures from in renamed
      {
        var k :| 0 <= k < |before| && before[k] == from;
        assert after[k] == other[from] && other[from] !in before;
      }
    }
  }

  function Image(m: map<string, string>, keys: set<string>): set<string>
    requires keys <= m.Keys
  {
    set k | k in keys :: m[k]
  }

  /** As many targets as sources exactly when no two sources share a target. */
  lemma {:induction false} AsManyTargets(m: map<string, string>, keys: set<string>)
    requires keys <= m.Keys
    ensures |Image(m, keys)| <= |keys|
    ensures |Image(m, keys)| == |keys| <==> forall p, q :: p in keys && q in keys && m[p] == m[q] ==> p == q
    decreases keys
  {
    if keys != {} {
      var k :| k in keys;
      var rest := keys - {k};
      AsManyTargets(m, rest);
      assert Image(m, keys) == Image(m, rest) + {m[k]};
      if m[k] in Image(m, rest) {
        assert Image(m, keys) == Image(m, rest);
        var q :| q in rest && m[q] == m[k];
      } else {
        forall p, q | p in keys && q in keys && m[p] == m[q] && |Image(m, keys)| == |keys|
          ensures p == q
        {
        }
      }
    }
  }

  /** The loop over the token pairs: the renaming they force, or nothing when a pair rules every renaming out. */
  method CollectPairs(before: seq<CodeToken>, after: seq<CodeToken>, ghost declared: set<string>, goName: string -> bool)
    returns (collected: Option<map<string, string>>)
    requires |before| == |after|
    ensures collected.Some? ==> Collected(Texts(before), Texts(after), goName, collected.value, |before|)
    ensures collected.None? ==> !exists other :: ConsistentRenaming(Texts(before), Texts(after), declared, goName, other)
  {
    ghost var x, y := Texts(before), Texts(after);
    var renamed: map<string, string> := map[];
    for index := 0 to |before|
      invariant Collected(x, y, goName, renamed, index)
    {
      var from, to := before[index].text, after[index].text;
      if from != to {
        if !goName(from) || !goName(to) || (from in renamed && renamed[from] != to) {
          RenamingBlocked(x, y, declared, goName, renamed, index);
          return None;
        }
        CollectOne(x, y, goName, renamed, index);
        renamed := renamed[from := to];
      }
    }
    collected := Some(renamed);
  }

  lemma UsedTexts(tokens: seq<CodeToken>, used: set<string>)
    requires used == set token | token in tokens :: token.text
    ensures forall name :: name in used <==> name in Texts(tokens)
  {
    assert forall k :: 0 <= k < |tokens| ==> tokens[k] in tokens && Texts(tokens)[k] == tokens[k].text;
  }

  method IsRenameOnly(was: WatchDetail, now: WatchDetail, goName: string -> bool) returns (only: bool)
    ensures only <==> exists renamed ::
      ConsistentRenaming(Texts(was.tokens), Texts(now.tokens), was.declared, goName, renamed)
  {
    var before, after := was.tokens, now.tokens;
    if |before| != |after| {
      return false;
    }
    var collected := CollectPairs(before, after, was.declared, goName);
    if collected.None? {
      return false;
    }
    var renamed := collected.value;
    var targets := Image(renamed, renamed.Keys);
    var used := set token | token in before :: token.text;
    UsedTexts(before, used);
    RenamingDecided(Texts(before), Texts(after), was.declared, goName, renamed);
    only :=
      && renamed != map[]
      && |targets| == |renamed.Keys|
      && (forall from | from in renamed :: from in was.declared && renamed[from] !in used)
      && forall k | 0 <= k < |before| :: before[k].text in renamed ==> after[k].text == renamed[before[k].text];
  }

  /** Once every token is collected, the final tests decide whether any renaming explains the edit. */
  lemma RenamingDecided(before: seq<string>, after: seq<string>, declared: set<string>, goName: string -> bool,
                        renamed: map<string, string>)
    requires |before| == |after| && Collected(before, after, goName, renamed, |before|)
    ensures
      (&& renamed != map[]
       && |Image(renamed, renamed.Keys)| == |renamed.Keys|
       && (forall from :: from in renamed ==> from in declared && renamed[from] !in before)
       && (forall k :: 0 <= k < |before| && before[k] in renamed ==> after[k] == renamed[before[k]]))
      <==> exists other :: ConsistentRenaming(before, after, declared, goName, other)
  {
    AsManyTargets(renamed, renamed.Keys);
    forall other | ConsistentRenaming(before, after, declared, goName, other)
      ensures other == renamed
    {
      CollectedIsForced(before, after, declared, goName, renamed, |before|, other);
    }
    if && renamed != map[]
       && |Image(renamed, renamed.Keys)| == |renamed.Keys|
       && (forall from :: from in renamed ==> from in declared && renamed[from] !in before)
       && (forall k :: 0 <= k < |before| && before[k] in renamed ==> after[k] == renamed[before[k]])
    {
      assert ConsistentRenaming(before, after, declared, goName, renamed);
    }
  }

  lemma CollectOne(before: seq<string>, after: seq<string>, goName: string -> bool, renamed: map<string, string>, index: nat)
    requires index < |before| == |after| && Collected(before, after, goName, renamed, index)
    requires before[index] != after[index] && goName(before[index]) && goName(after[index])
    requires before[index] in renamed ==> renamed[before[index]] == after[index]
    ensures Collected(before, after, goName, renamed[before[index] := after[index]], index + 1)
  {
    var next := renamed[before[index] := after[index]];
    forall from | from in next
      ensures exists k :: 0 <= k < index + 1 && before[k] == from && after[k] == next[from]
    {
      if from == before[index] {
        assert before[index] == from && after[index] == next[from];
      } else {
        var k :| 0 <= k < index && before[k] == from && after[k] == renamed[from];
        assert before[k] == from && after[k] == next[from];
      }
    }
  }

  lemma RenamingBlocked(before: seq<string>, after: seq<string>, declared: set<string>, goName: string -> bool,
                        renamed: map<string, string>, index: nat)
    requires index < |before| == |after| && Collected(before, after, goName, renamed, index)
    requires before[index] != after[index]
    requires !goName(before[index]) || !goName(after[index])
             || (before[index] in renamed && renamed[before[index]] != after[index])
    ensures !exists other :: ConsistentRenaming(before, after, declared, goName, other)
  {
    forall other | ConsistentRenaming(before, after, declared, goName, other)
      ensures false
    {
      CollectedIsForced(before, after, declared, goName, renamed, index, other);
    }
  }
}
