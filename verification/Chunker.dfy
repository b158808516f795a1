/**
 * Chunks of a source file: slices that tile it or one symbol's lines, with their line numbers found by
 * cursors that only move forward.
 */
module Chunker {
  import opened Wrappers

  const TOKEN_SLICE_BYTES := 1600
  const SLICE_TOKENS := 400

  type Bytes = seq<nat>

  datatype ExtractedSymbol = ExtractedSymbol(name: string, line: int, endLine: int)

  /** `slice` is the number of a slice of an oversized symbol. */
  datatype Chunk = Chunk(
    symbolName: Option<string>, slice: Option<nat>,
    lineStart: nat, lineEnd: nat, byteStart: nat, byteEnd: nat, tokenEstimate: nat)

  // ----- lines, by a scan of the bytes

  /** A line starts at offset `o`: at 0, after a line feed, and after a carriage return no line feed follows. */
  predicate StartsLine(raw: Bytes, o: nat) {
    o == 0 || (o <= |raw| && (raw[o - 1] == 10 || (raw[o - 1] == 13 && (o == |raw| || raw[o] != 10))))
  }

  /** How many lines start before offset `o`. */
  function LinesBefore(raw: Bytes, o: nat): nat {
    if o == 0 then 0 else LinesBefore(raw, o - 1) + if StartsLine(raw, o - 1) then 1 else 0
  }

  /** The line that holds the byte at `b`. */
  function LineAt(raw: Bytes, b: nat): nat {
    LinesBefore(raw, b + 1)
  }

  /** The last line that starts before `end`. */
  function LastLineBefore(raw: Bytes, end: nat): nat {
    LinesBefore(raw, end)
  }

  lemma {:induction false} LinesBeforeGrows(raw: Bytes, a: nat, b: nat)
    requires a <= b
    ensures LinesBefore(raw, a) <= LinesBefore(raw, b)
    ensures a < b && StartsLine(raw, a) ==> LinesBefore(raw, a) < LinesBefore(raw, b)
  {
    if a < b {
      LinesBeforeGrows(raw, a, b - 1);
    }
  }

  /** The offset each line starts at, and the end of the file as one more. */
  ghost predicate IsOffsets(raw: Bytes, offsets: seq<nat>) {
    && |offsets| >= 2 && offsets[|offsets| - 1] == |raw|
    && (forall i :: 0 <= i < |offsets| - 1 ==> IsStartOf(raw, offsets[i], i))
    && LinesBefore(raw, |raw| + 1) == |offsets| - 1
  }

  /** Line `i`, counted from 0, starts at `o`. */
  ghost predicate IsStartOf(raw: Bytes, o: nat, i: nat) {
    o <= |raw| && StartsLine(raw, o) && LinesBefore(raw, o) == i
  }

  method BuildByteOffsets(raw: Bytes) returns (offsets: seq<nat>)
    ensures IsOffsets(raw, offsets)
    ensures forall i, j :: 0 <= i < j < |offsets| - 1 ==> offsets[i] < offsets[j]
    ensures forall o: nat {:trigger o in offsets[..|offsets| - 1]} :: o in offsets[..|offsets| - 1] <==>
      o <= |raw| && (o == 0 || raw[o - 1] == 10 || (raw[o - 1] == 13 && (o == |raw| || raw[o] != 10)))
    ensures offsets[|offsets| - 1] == |raw|
  {
    offsets := [0];
    var i := 0;
    while i < |raw|
      invariant i <= |raw| && |offsets| >= 1
      invariant forall k :: 0 <= k < |offsets| ==> IsStartOf(raw, offsets[k], k)
      invariant LinesBefore(raw, i + 1) == |offsets|
      invariant 0 < i < |raw| && raw[i] == 10 ==> raw[i - 1] != 13
    {
      if raw[i] == 13 {
        if i + 1 < |raw| && raw[i + 1] == 10 {
          i := i + 1;
        }
        offsets := offsets + [i + 1];
      } else if raw[i] == 10 {
        offsets := offsets + [i + 1];
      }
      i := i + 1;
    }
    offsets := offsets + [|raw|];
    OffsetsAreStarts(raw, offsets);
  }

  lemma OffsetsAreStarts(raw: Bytes, offsets: seq<nat>)
    requires IsOffsets(raw, offsets)
    ensures forall i, j :: 0 <= i < j < |offsets| - 1 ==> offsets[i] < offsets[j]
    ensures forall o: nat {:trigger o in offsets[..|offsets| - 1]} :: o in offsets[..|offsets| - 1] <==>
      o <= |raw| && (o == 0 || raw[o - 1] == 10 || (raw[o - 1] == 13 && (o == |raw| || raw[o] != 10)))
  {
    forall i, j | 0 <= i < j < |offsets| - 1
      ensures offsets[i] < offsets[j]
    {
      assert IsStartOf(raw, offsets[i], i) && IsStartOf(raw, offsets[j], j);
      if offsets[j] <= offsets[i] {
        LinesBeforeGrows(raw, offsets[j], offsets[i]);
      }
    }
    forall o: nat {:trigger o in offsets[..|offsets| - 1]}
      ensures o in offsets[..|offsets| - 1] <==>
        o <= |raw| && (o == 0 || raw[o - 1] == 10 || (raw[o - 1] == 13 && (o == |raw| || raw[o] != 10)))
    {
      OffsetIsStart(raw, offsets, o);
    }
  }

  lemma OffsetIsStart(raw: Bytes, offsets: seq<nat>, o: nat)
    requires IsOffsets(raw, offsets)
    ensures o in offsets[..|offsets| - 1] <==> o <= |raw| && StartsLine(raw, o)
  {
    var starts := offsets[..|offsets| - 1];
    if o <= |raw| && StartsLine(raw, o) {
      LinesBeforeGrows(raw, o, |raw| + 1);
      var i := LinesBefore(raw, o);
      assert IsStartOf(raw, offsets[i], i);
      LinesBeforeGrows(raw, if o < offsets[i] then o else offsets[i], if o < offsets[i] then offsets[i] else o);
      assert starts[i] == o;
    }
    if o in starts {
      var i :| 0 <= i < |starts| && starts[i] == o;
      assert IsStartOf(raw, offsets[i], i);
    }
  }

  /** A cursor that stops at the last start not past `b` has found the line. */
  lemma CursorHolds(raw: Bytes, offsets: seq<nat>, cursor: nat, b: nat)
    requires IsOffsets(raw, offsets) && cursor < |offsets| - 1 && b < |raw|
    requires offsets[cursor] <= b && (cursor + 1 == |offsets| - 1 || offsets[cursor + 1] > b)
    ensures LineAt(raw, b) == cursor + 1
  {
    LinesBeforeGrows(raw, offsets[cursor], b + 1);
    if cursor + 1 < |offsets| - 1 {
      LinesBeforeGrows(raw, b + 1, offsets[cursor + 1]);
    } else {
      LinesBeforeGrows(raw, b + 1, |raw| + 1);
    }
  }

  lemma CursorBefore(raw: Bytes, offsets: seq<nat>, cursor: nat, end: nat)
    requires IsOffsets(raw, offsets) && cursor < |offsets| - 1 && end <= |raw|
    requires offsets[cursor] < end && (cursor + 1 == |offsets| - 1 || offsets[cursor + 1] >= end)
    ensures LastLineBefore(raw, end) == cursor + 1
  {
    LinesBeforeGrows(raw, offsets[cursor], end);
    if cursor + 1 < |offsets| - 1 {
      LinesBeforeGrows(raw, end, offsets[cursor + 1]);
    } else {
      LinesBeforeGrows(raw, end, |raw| + 1);
    }
  }

  // ----- slices

  /** Consecutive chunks from `start` to `end`, none empty or longer than a slice, all but the last full. */
  ghost predicate Tiles(chunks: seq<Chunk>, start: nat, end: nat) {
    && (chunks == [] <==> start == end)
    && (chunks != [] ==> chunks[0].byteStart == start && chunks[|chunks| - 1].byteEnd == end)
    && (forall k :: 0 <= k < |chunks| ==> 0 < chunks[k].byteEnd - chunks[k].byteStart <= 1600)
    && (forall k :: 0 <= k < |chunks| - 1 ==>
          chunks[k].byteEnd == chunks[k + 1].byteStart && chunks[k].byteEnd - chunks[k].byteStart == 1600)
  }

  /** The line numbers a full scan gives. */
  ghost predicate OnItsLines(raw: Bytes, c: Chunk) {
    c.lineStart == LineAt(raw, c.byteStart) && c.lineEnd == LastLineBefore(raw, c.byteEnd)
  }

  function Tokens(bytes: nat): nat {
    if bytes <= 4 then 1 else (bytes + 3) / 4
  }

  /** The `k`-th slice of a symbol, or a chunk of text, on its lines. */
  ghost predicate IsSlice(raw: Bytes, name: Option<string>, c: Chunk, k: nat) {
    && OnItsLines(raw, c) && c.symbolName == name && c.slice == (if name.Some? then Some(k) else None)
    && c.byteStart <= c.byteEnd && c.tokenEstimate == Tokens(c.byteEnd - c.byteStart)
  }

  /** Moves the start cursor to the line holding `pos`, and finds the last line starting before `byteEnd`. */
  method FindLines(raw: Bytes, offsets: seq<nat>, cursor: nat, last: nat, pos: nat, byteEnd: nat)
    returns (startCursor: nat, endCursor: nat)
    requires IsOffsets(raw, offsets) && cursor < last <= |offsets| - 1 && offsets[cursor] <= pos < byteEnd <= |raw|
    requires last == |offsets| - 1 || offsets[last] >= byteEnd
    ensures cursor <= startCursor <= endCursor < last && offsets[startCursor] <= pos
    ensures startCursor + 1 == LineAt(raw, pos) && endCursor + 1 == LastLineBefore(raw, byteEnd)
  {
    startCursor := cursor;
    while startCursor + 1 < last && offsets[startCursor + 1] <= pos
      invariant cursor <= startCursor < last && offsets[startCursor] <= pos
    {
      startCursor := startCursor + 1;
    }
    endCursor := startCursor;
    while endCursor + 1 < last && offsets[endCursor + 1] < byteEnd
      invariant startCursor <= endCursor < last && offsets[endCursor] < byteEnd
    {
      endCursor := endCursor + 1;
    }
    CursorHolds(raw, offsets, startCursor, pos);
    CursorBefore(raw, offsets, endCursor, byteEnd);
  }

  ghost predicate LastIsFull(chunks: seq<Chunk>) {
    chunks != [] ==> chunks[|chunks| - 1].byteEnd - chunks[|chunks| - 1].byteStart == TOKEN_SLICE_BYTES
  }

  lemma OneMoreTile(chunks: seq<Chunk>, start: nat, c: Chunk)
    requires Tiles(chunks, start, c.byteStart) && LastIsFull(chunks) && 0 < c.byteEnd - c.byteStart <= TOKEN_SLICE_BYTES
    ensures Tiles(chunks + [c], start, c.byteEnd)
    ensures c.byteEnd - c.byteStart == TOKEN_SLICE_BYTES ==> LastIsFull(chunks + [c])
  {
    if chunks != [] {
      assert chunks[0].byteEnd - chunks[0].byteStart > 0;
      TilesForward(chunks, start, c.byteStart, |chunks| - 1);
    }
  }

  lemma {:induction false} TilesForward(chunks: seq<Chunk>, start: nat, end: nat, k: nat)
    requires Tiles(chunks, start, end) && k < |chunks|
    ensures start < chunks[k].byteEnd
  {
    if k > 0 {
      TilesForward(chunks, start, end, k - 1);
    }
  }

  /** Slices [start, end), which lies on lines `first` + 1 up to `last`. */
  method Slice(raw: Bytes, offsets: seq<nat>, name: Option<string>, start: nat, end: nat, first: nat, last: nat)
    returns (chunks: seq<Chunk>)
    requires IsOffsets(raw, offsets) && start <= end <= |raw|
    requires first < last <= |offsets| - 1 && offsets[first] <= start
    requires last == |offsets| - 1 || offsets[last] >= end
    ensures Tiles(chunks, start, end)
    ensures forall k :: 0 <= k < |chunks| ==> IsSlice(raw, name, chunks[k], k)
  {
    chunks := [];
    var pos, startCursor := start, first;
    while pos < end
      invariant start <= pos <= end && first <= startCursor < last && offsets[startCursor] <= pos
      invariant Tiles(chunks, start, pos)
      invariant pos < end ==> LastIsFull(chunks)
      invariant forall k :: 0 <= k < |chunks| ==> IsSlice(raw, name, chunks[k], k)
    {
      var byteEnd := if pos + TOKEN_SLICE_BYTES < end then pos + TOKEN_SLICE_BYTES else end;
      var cursor, endCursor := FindLines(raw, offsets, startCursor, last, pos, byteEnd);
      var slice := if name.Some? then Some(|chunks|) else None;
      var chunk := Chunk(name, slice, cursor + 1, endCursor + 1, pos, byteEnd, Tokens(byteEnd - pos));
      OneMoreTile(chunks, start, chunk);
      assert IsSlice(raw, name, chunk, |chunks|);
      chunks := chunks + [chunk];
      pos, startCursor := byteEnd, cursor;
    }
  }

  /** A file without symbols: its text chunks partition it. */
  method MakeTextChunks(raw: Bytes, offsets: seq<nat>) returns (chunks: seq<Chunk>)
    requires IsOffsets(raw, offsets)
    ensures Tiles(chunks, 0, |raw|)
    ensures forall k :: 0 <= k < |chunks| ==> IsSlice(raw, None, chunks[k], k)
  {
    assert IsStartOf(raw, offsets[0], 0);
    StartOfFile(raw, offsets);
    chunks := Slice(raw, offsets, None, 0, |raw|, 0, |offsets| - 1);
  }

  lemma StartOfFile(raw: Bytes, offsets: seq<nat>)
    requires IsOffsets(raw, offsets)
    ensures offsets[0] == 0
  {
    assert IsStartOf(raw, offsets[0], 0);
    LinesBeforeGrows(raw, 0, offsets[0]);
  }

  function Clamp(line: int, low: nat, high: nat): nat {
    if line <= low then low else if line >= high then high else line
  }

  /** The symbol's lines, within the file. */
  function FirstLine(sym: ExtractedSymbol, lineCount: nat): nat {
    Clamp(sym.line, 1, lineCount)
  }

  function LastLine(sym: ExtractedSymbol, lineCount: nat): nat {
    Clamp(sym.endLine, FirstLine(sym, lineCount), lineCount)
  }

  /** Lines in the file are taken as they are, others as the nearest; a last line before the first as the first. */
  lemma LinesWithin(sym: ExtractedSymbol, lineCount: nat)
    requires lineCount >= 1
    ensures var first, last := FirstLine(sym, lineCount), LastLine(sym, lineCount);
      && first == (if sym.line < 1 then 1 else if sym.line > lineCount then lineCount else sym.line)
      && last == (if sym.endLine < first then first else if sym.endLine > lineCount then lineCount else sym.endLine)
      && 1 <= first <= last <= lineCount
  {
  }

  /** One token for every four bytes begun, and at least one. */
  lemma TokensRoundUp(bytes: nat)
    ensures Tokens(bytes) >= 1 && bytes <= 4 * Tokens(bytes) && (Tokens(bytes) > 1 ==> bytes > 4 * (Tokens(bytes) - 1))
  {
  }

  /** One chunk for all of the symbol's lines when it is small enough, else slices that tile exactly them. */
  ghost predicate ChunksOf(raw: Bytes, offsets: seq<nat>, sym: ExtractedSymbol, chunks: seq<Chunk>)
    requires IsOffsets(raw, offsets)
  {
    var first, last := FirstLine(sym, |offsets| - 1), LastLine(sym, |offsets| - 1);
    && 1 <= first <= last <= |offsets| - 1
    && var start, end := offsets[first - 1], offsets[last];
    && start <= end
    && if end - start <= 1600
       then chunks == [Chunk(Some(sym.name), None, first, last, start, end, Tokens(end - start))]
       else Tiles(chunks, start, end) && forall k :: 0 <= k < |chunks| ==> IsSlice(raw, Some(sym.name), chunks[k], k)
  }

  method ChunkSymbol(raw: Bytes, offsets: seq<nat>, sym: ExtractedSymbol) returns (chunks: seq<Chunk>)
    requires IsOffsets(raw, offsets)
    ensures ChunksOf(raw, offsets, sym, chunks)
  {
    var lineCount := |offsets| - 1;
    var clampedLineStart, clampedLineEnd := FirstLine(sym, lineCount), LastLine(sym, lineCount);
    var byteStart, byteEnd := offsets[clampedLineStart - 1], offsets[clampedLineEnd];
    LinesInOrder(raw, offsets, clampedLineStart - 1, clampedLineEnd);
    var tokenEstimate := Tokens(byteEnd - byteStart);
    if tokenEstimate <= SLICE_TOKENS {
      chunks := [Chunk(Some(sym.name), None, clampedLineStart, clampedLineEnd, byteStart, byteEnd, tokenEstimate)];
    } else {
      chunks := Slice(raw, offsets, Some(sym.name), byteStart, byteEnd, clampedLineStart - 1, clampedLineEnd);
    }
  }

  lemma LinesInOrder(raw: Bytes, offsets: seq<nat>, i: nat, j: nat)
    requires IsOffsets(raw, offsets) && i < j < |offsets|
    ensures offsets[i] <= offsets[j] <= |raw|
  {
    assert IsStartOf(raw, offsets[i], i);
    if j < |offsets| - 1 {
      assert IsStartOf(raw, offsets[j], j);
      if offsets[j] < offsets[i] {
        LinesBeforeGrows(raw, offsets[j], offsets[i]);
      }
    }
  }

  function Flatten(groups: seq<seq<Chunk>>): seq<Chunk> {
    if groups == [] then [] else Flatten(groups[..|groups| - 1]) + groups[|groups| - 1]
  }

  lemma FlattenOneMore(groups: seq<seq<Chunk>>, group: seq<Chunk>)
    ensures Flatten(groups + [group]) == Flatten(groups) + group
  {
    assert (groups + [group])[..|groups|] == groups;
  }

  /** The symbols' chunks one symbol after another, or the text's. `groups` is what each symbol is told of. */
  method ExtractChunks(raw: Bytes, symbols: seq<ExtractedSymbol>) returns (chunks: seq<Chunk>, groups: seq<seq<Chunk>>)
    ensures symbols == [] ==> Tiles(chunks, 0, |raw|) && forall k :: 0 <= k < |chunks| ==> IsSlice(raw, None, chunks[k], k)
    ensures |groups| == |symbols| && (symbols != [] ==> chunks == Flatten(groups))
    ensures exists offsets :: IsOffsets(raw, offsets) && forall k :: 0 <= k < |symbols| ==> ChunksOf(raw, offsets, symbols[k], groups[k])
  {
    var offsets := BuildByteOffsets(raw);
    chunks, groups := [], [];
    if |symbols| == 0 {
      chunks := MakeTextChunks(raw, offsets);
      return;
    }
    for k := 0 to |symbols|
      invariant |groups| == k && chunks == Flatten(groups)
      invariant forall i :: 0 <= i < k ==> ChunksOf(raw, offsets, symbols[i], groups[i])
    {
      var more := ChunkSymbol(raw, offsets, symbols[k]);
      FlattenOneMore(groups, more);
      chunks, groups := chunks + more, groups + [more];
    }
  }
}
