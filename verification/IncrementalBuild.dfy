/**
 * The per-file loop of `loadOrBuildSourceIndex`: which cached entries it reuses, which files it
 * extracts again, and when the outcome equals an extraction from scratch.
 */
module IncrementalBuild {
  import opened Wrappers
  import opened SourceIndex
  import Merkle

  /** What the parsers make of a file's text: they may also throw. */
  datatype Extraction =
    | Crashed
    | Extracted(symbols: seq<IndexedSymbol>, chunks: seq<IndexedChunk>, outgoingSymbolRefs: seq<RefCount>)

  /** The deterministic functions of a build that this model does not look into. */
  datatype Engine = Engine(
    sha: string -> string,
    extract: (string, string) -> Extraction,
    language: (string, string) -> string,
    lines: string -> seq<string>,
    wordIn: (string, string) -> bool)

  datatype EnumeratedFile = EnumeratedFile(path: string, language: string, sizeBytes: nat, mtimeMs: int)

  type Files = map<string, IndexedFile>

  /** A content hash identifies the content and is never empty. */
  ghost predicate SoundEngine(engine: Engine) {
    && Merkle.Collisionless(engine.sha)
    && forall raw :: engine.sha(raw) != ""
  }

  // ----- the from-scratch result

  /** The entry a build without a cache makes of `raw`, with the stat just enumerated. */
  function Fresh(engine: Engine, f: EnumeratedFile, raw: string): IndexedFile {
    match engine.extract(f.path, raw)
    case Crashed =>
      IndexedFile(f.path, engine.language(f.path, raw), f.sizeBytes, f.mtimeMs, engine.sha(raw), [], [], [], Quarantined)
    case Extracted(symbols, chunks, refs) =>
      IndexedFile(f.path, engine.language(f.path, raw), f.sizeBytes, f.mtimeMs, engine.sha(raw), symbols, chunks, refs, Ok)
  }

  /** What an unreadable file without a cached entry gets. */
  function Placeholder(f: EnumeratedFile): IndexedFile {
    IndexedFile(f.path, f.language, f.sizeBytes, f.mtimeMs, "", [], [], [], Failed)
  }

  // ----- symbol-line validation

  function WindowStart(sym: IndexedSymbol): nat {
    if sym.lineStart > 2 then sym.lineStart - 2 else 0
  }

  function WindowEnd(sym: IndexedSymbol, lineCount: nat): nat {
    if sym.lineEnd + 2 < lineCount then sym.lineEnd + 2 else lineCount
  }

  predicate FoundNear(engine: Engine, sym: IndexedSymbol, lines: seq<string>) {
    exists i :: WindowStart(sym) <= i < WindowEnd(sym, |lines|) && engine.wordIn(sym.name, lines[i])
  }

  predicate SymbolsValid(engine: Engine, file: IndexedFile, raw: string) {
    forall s :: s in file.symbols ==> FoundNear(engine, s, engine.lines(raw))
  }

  /** Every symbol's name stands on a line from two before its first to two after its last. */
  lemma SymbolsValidMeans(engine: Engine, file: IndexedFile, raw: string)
    ensures SymbolsValid(engine, file, raw) <==> forall s :: s in file.symbols ==>
      exists i :: 0 <= i < |engine.lines(raw)| && s.lineStart - 2 <= i < s.lineEnd + 2 && engine.wordIn(s.name, engine.lines(raw)[i])
  {
    var lines := engine.lines(raw);
    forall s | s in file.symbols
      ensures FoundNear(engine, s, lines) <==>
        exists i :: 0 <= i < |lines| && s.lineStart - 2 <= i < s.lineEnd + 2 && engine.wordIn(s.name, lines[i])
    {
      if i :| 0 <= i < |lines| && s.lineStart - 2 <= i < s.lineEnd + 2 && engine.wordIn(s.name, lines[i]) {
        assert WindowStart(s) <= i < WindowEnd(s, |lines|);
      }
    }
  }

  method ValidateCachedSymbols(engine: Engine, file: IndexedFile, raw: string) returns (valid: bool)
    ensures valid <==> SymbolsValid(engine, file, raw)
    ensures valid <==> forall s :: s in file.symbols ==>
      exists i :: 0 <= i < |engine.lines(raw)| && s.lineStart - 2 <= i < s.lineEnd + 2 && engine.wordIn(s.name, engine.lines(raw)[i])
  {
    assert SymbolsValid(engine, file, raw) <==> forall s :: s in file.symbols ==>
      exists i :: 0 <= i < |engine.lines(raw)| && s.lineStart - 2 <= i < s.lineEnd + 2 && engine.wordIn(s.name, engine.lines(raw)[i]) by {
      SymbolsValidMeans(engine, file, raw);
    }
    if |file.symbols| == 0 {
      return true;
    }
    var lines := engine.lines(raw);
    for k := 0 to |file.symbols|
      invariant forall j :: 0 <= j < k ==> FoundNear(engine, file.symbols[j], lines)
    {
      var sym := file.symbols[k];
      var found, i := false, WindowStart(sym);
      while i < WindowEnd(sym, |lines|) && !found
        invariant WindowStart(sym) <= i
        invariant found ==> FoundNear(engine, sym, lines)
        invariant !found ==> forall j :: WindowStart(sym) <= j < i && j < |lines| ==> !engine.wordIn(sym.name, lines[j])
      {
        if engine.wordIn(sym.name, lines[i]) {
          found := true;
        }
        i := i + 1;
      }
      if !found {
        assert sym in file.symbols && !FoundNear(engine, sym, lines);
        return false;
      }
    }
    return true;
  }

  // ----- one file

  function WithoutStaleFailedStatus(entry: IndexedFile): IndexedFile {
    if entry.parseStatus != Failed then entry else entry.(parseStatus := Ok)
  }

  /** The entry the loop gives file `f`; `raw` is `None` when its bytes could not be read. */
  function FileEntry(engine: Engine, cached: Option<IndexedFile>, f: EnumeratedFile, raw: Option<string>): IndexedFile {
    match raw
    case None =>
      if cached.Some? then cached.value.(parseStatus := Failed) else Placeholder(f)
    case Some(text) =>
      if cached.Some? && cached.value.contentSha256 == engine.sha(text) && SymbolsValid(engine, cached.value, text)
      then WithoutStaleFailedStatus(cached.value).(sizeBytes := f.sizeBytes, mtimeMs := f.mtimeMs)
      else Fresh(engine, f, text)
  }

  function Lookup(files: Files, path: string): Option<IndexedFile> {
    if path in files then Some(files[path]) else None
  }

  method ProcessFile(engine: Engine, cached: Option<IndexedFile>, f: EnumeratedFile, raw: Option<string>)
    returns (entry: IndexedFile, reused: bool)
    ensures entry == FileEntry(engine, cached, f, raw)
    ensures reused <==>
      && raw.Some? && cached.Some?
      && cached.value.contentSha256 == engine.sha(raw.value) && SymbolsValid(engine, cached.value, raw.value)
    ensures raw.None? && cached.Some? ==> entry == cached.value.(parseStatus := Failed)
    ensures raw.None? && cached.None? ==>
      entry == IndexedFile(f.path, f.language, f.sizeBytes, f.mtimeMs, "", [], [], [], Failed)
    ensures reused ==>
      && entry == cached.value.(sizeBytes := f.sizeBytes, mtimeMs := f.mtimeMs, parseStatus := entry.parseStatus)
      && (entry.parseStatus == Quarantined <==> cached.value.parseStatus == Quarantined) && entry.parseStatus != Failed
    ensures raw.Some? && !reused ==>
      && entry.path == f.path && entry.language == engine.language(f.path, raw.value)
      && entry.sizeBytes == f.sizeBytes && entry.mtimeMs == f.mtimeMs && entry.contentSha256 == engine.sha(raw.value)
      && (if engine.extract(f.path, raw.value).Crashed?
          then entry.symbols == [] && entry.chunks == [] && entry.outgoingSymbolRefs == [] && entry.parseStatus == Quarantined
          else entry.parseStatus == Ok && engine.extract(f.path, raw.value)
                 == Extracted(entry.symbols, entry.chunks, entry.outgoingSymbolRefs))
  {
    if raw.None? {
      if cached.Some? {
        return cached.value.(parseStatus := Failed), false;
      }
      return Placeholder(f), false;
    }
    var sha := engine.sha(raw.value);
    var statMatched := cached.Some? && cached.value.sizeBytes == f.sizeBytes && cached.value.mtimeMs == f.mtimeMs;
    var contentMatched := cached.Some? && cached.value.contentSha256 == sha;
    if cached.Some? && statMatched && contentMatched {
      var valid := ValidateCachedSymbols(engine, cached.value, raw.value);
      if valid {
        return WithoutStaleFailedStatus(cached.value), true;
      }
    }
    if cached.Some? && contentMatched {
      var valid := ValidateCachedSymbols(engine, cached.value, raw.value);
      if valid {
        return WithoutStaleFailedStatus(cached.value).(sizeBytes := f.sizeBytes, mtimeMs := f.mtimeMs), true;
      }
    }
    match engine.extract(f.path, raw.value)
    case Crashed =>
      return IndexedFile(f.path, engine.language(f.path, raw.value), f.sizeBytes, f.mtimeMs, sha, [], [], [], Quarantined), false;
    case Extracted(symbols, chunks, refs) =>
      return IndexedFile(f.path, engine.language(f.path, raw.value), f.sizeBytes, f.mtimeMs, sha, symbols, chunks, refs, Ok), false;
  }

  // ----- the loop

  /** The bytes each enumerated path yields; a path without bytes is unreadable. */
  type Texts = map<string, string>

  function ReadOf(texts: Texts, path: string): Option<string> {
    if path in texts then Some(texts[path]) else None
  }

  function Entries(engine: Engine, seed: Files, files: seq<EnumeratedFile>, texts: Texts): Files {
    if files == [] then map[]
    else
      var f := files[|files| - 1];
      Entries(engine, seed, files[..|files| - 1], texts)
        [f.path := FileEntry(engine, Lookup(seed, f.path), f, ReadOf(texts, f.path))]
  }

  /** The seed has an entry of the bytes just read whose symbols are still in place. */
  predicate Reusable(engine: Engine, seed: Files, texts: Texts, path: string)
    requires path in texts
  {
    path in seed && seed[path].contentSha256 == engine.sha(texts[path]) && SymbolsValid(engine, seed[path], texts[path])
  }

  method BuildFileEntries(engine: Engine, seed: Files, files: seq<EnumeratedFile>, texts: Texts)
    returns (fileEntries: Files, reused: nat, reparsed: nat)
    ensures fileEntries == Entries(engine, seed, files, texts)
    ensures reparsed == 0 <==> forall i :: 0 <= i < |files| && files[i].path in texts ==> Reusable(engine, seed, texts, files[i].path)
    ensures (forall f :: f in files ==> f.path in texts) ==> reused + reparsed == |files|
  {
    fileEntries, reused, reparsed := map[], 0, 0;
    ghost var allRead := forall f :: f in files ==> f.path in texts;
    for index := 0 to |files|
      invariant fileEntries == Entries(engine, seed, files[..index], texts)
      invariant reparsed == 0 <==> forall i :: 0 <= i < index && files[i].path in texts ==> Reusable(engine, seed, texts, files[i].path)
      invariant allRead ==> reused + reparsed == index
    {
      var f := files[index];
      var entry, again := ProcessFile(engine, Lookup(seed, f.path), f, ReadOf(texts, f.path));
      fileEntries := fileEntries[f.path := entry];
      assert again <==> f.path in texts && Reusable(engine, seed, texts, f.path);
      assert allRead ==> f.path in texts by { assert f in files; }
      if again {
        reused := reused + 1;
      } else if f.path in texts {
        reparsed := reparsed + 1;
      }
      assert files[..index + 1][..index] == files[..index];
    }
    assert files[..|files|] == files;
  }

  // ----- entries this code produces

  /** Up to its stat, `e` is the extraction of `raw`, whatever became of its status. */
  ghost predicate ExtractedFrom(engine: Engine, e: IndexedFile, raw: string) {
    var anew := Fresh(engine, EnumeratedFile(e.path, e.language, e.sizeBytes, e.mtimeMs), raw);
    e == anew.(parseStatus := e.parseStatus) && (e.parseStatus == Quarantined ==> anew.parseStatus == Quarantined)
  }

  ghost predicate IsPlaceholder(e: IndexedFile) {
    e.contentSha256 == "" && e.symbols == [] && e.chunks == [] && e.outgoingSymbolRefs == [] && e.parseStatus == Failed
  }

  /** What every cached entry satisfies, on every run. */
  ghost predicate Produced(engine: Engine, path: string, e: IndexedFile) {
    e.path == path && (IsPlaceholder(e) || exists raw :: ExtractedFrom(engine, e, raw))
  }

  ghost predicate ProducedFiles(engine: Engine, files: Files) {
    forall path :: path in files ==> Produced(engine, path, files[path])
  }

  /** The entry hides that its content crashes the parsers: the quarantine is lost. */
  ghost predicate QuarantineLost(engine: Engine, e: IndexedFile, raw: string) {
    e.contentSha256 == engine.sha(raw) && engine.extract(e.path, raw).Crashed? && e.parseStatus != Quarantined
  }

  lemma EntryIsProduced(engine: Engine, cached: Option<IndexedFile>, f: EnumeratedFile, raw: Option<string>)
    requires SoundEngine(engine)
    requires cached.Some? ==> Produced(engine, f.path, cached.value)
    ensures Produced(engine, f.path, FileEntry(engine, cached, f, raw))
  {
    var e := FileEntry(engine, cached, f, raw);
    if cached.Some? && !IsPlaceholder(cached.value) {
      var text :| ExtractedFrom(engine, cached.value, text);
      if raw.None? || e != Fresh(engine, f, raw.value) {
        assert ExtractedFrom(engine, e, text);
      } else {
        assert ExtractedFrom(engine, e, raw.value);
      }
    } else if raw.Some? {
      assert ExtractedFrom(engine, e, raw.value);
    }
  }

  /**
   * A readable file's entry is the fresh extraction of the bytes just read, with the current stat,
   * exactly when the cached entry is not one that lost a quarantine of the same bytes.
   */
  lemma ReadableEntryIsFreshIff(engine: Engine, cached: Option<IndexedFile>, f: EnumeratedFile, raw: string)
    requires SoundEngine(engine)
    requires cached.Some? ==> Produced(engine, f.path, cached.value)
    ensures FileEntry(engine, cached, f, Some(raw)) == Fresh(engine, f, raw)
       <==> !(cached.Some? && QuarantineLost(engine, cached.value, raw))
    ensures FileEntry(engine, cached, f, Some(raw)).contentSha256 == engine.sha(raw)
    ensures FileEntry(engine, cached, f, Some(raw)).parseStatus != Failed
  {
    if cached.Some? && cached.value.contentSha256 == engine.sha(raw) {
      var text :| ExtractedFrom(engine, cached.value, text);
      assert text == raw;
    }
  }

  // ----- runs

  /** No entry hides a crash. */
  ghost predicate NothingLost(engine: Engine, files: Files) {
    forall path, raw :: path in files ==> !QuarantineLost(engine, files[path], raw)
  }

  lemma {:induction false} EntriesMembers(engine: Engine, seed: Files, files: seq<EnumeratedFile>, texts: Texts, path: string)
    ensures path in Entries(engine, seed, files, texts) <==> exists f :: f in files && f.path == path
    ensures path in Entries(engine, seed, files, texts) ==>
      exists f :: f in files && f.path == path
        && Entries(engine, seed, files, texts)[path] == FileEntry(engine, Lookup(seed, path), f, ReadOf(texts, path))
  {
    if files != [] {
      var init, last := files[..|files| - 1], files[|files| - 1];
      EntriesMembers(engine, seed, init, texts, path);
      assert files == init + [last];
      if last.path != path && path in Entries(engine, seed, init, texts) {
        var f :| f in init && f.path == path
          && Entries(engine, seed, init, texts)[path] == FileEntry(engine, Lookup(seed, path), f, ReadOf(texts, path));
        assert f in files;
      }
    }
  }

  lemma BuildKeepsProduced(engine: Engine, seed: Files, files: seq<EnumeratedFile>, texts: Texts)
    requires SoundEngine(engine) && ProducedFiles(engine, seed)
    ensures ProducedFiles(engine, Entries(engine, seed, files, texts))
  {
    forall path | path in Entries(engine, seed, files, texts)
      ensures Produced(engine, path, Entries(engine, seed, files, texts)[path])
    {
      EntriesMembers(engine, seed, files, texts, path);
      var f :| f in files && f.path == path
        && Entries(engine, seed, files, texts)[path] == FileEntry(engine, Lookup(seed, path), f, ReadOf(texts, path));
      EntryIsProduced(engine, Lookup(seed, path), f, ReadOf(texts, path));
    }
  }

  /** Every quarantined file of the seed can be read. */
  predicate QuarantinedReadable(seed: Files, files: seq<EnumeratedFile>, texts: Texts) {
    forall f :: f in files && f.path in seed && seed[f.path].parseStatus == Quarantined ==> f.path in texts
  }

  lemma BuildLosesNothing(engine: Engine, seed: Files, files: seq<EnumeratedFile>, texts: Texts)
    requires SoundEngine(engine) && ProducedFiles(engine, seed) && NothingLost(engine, seed)
    requires QuarantinedReadable(seed, files, texts)
    ensures NothingLost(engine, Entries(engine, seed, files, texts))
  {
    var result := Entries(engine, seed, files, texts);
    forall path, raw | path in result
      ensures !QuarantineLost(engine, result[path], raw)
    {
      EntriesMembers(engine, seed, files, texts, path);
      var f :| f in files && f.path == path
        && result[path] == FileEntry(engine, Lookup(seed, path), f, ReadOf(texts, path));
      if path in texts {
        ReadableEntryIsFreshIff(engine, Lookup(seed, path), f, texts[path]);
        assert path in seed ==> !QuarantineLost(engine, seed[path], texts[path]);
      } else if path in seed {
        assert !QuarantineLost(engine, seed[path], raw);
      }
    }
  }

  /** One build of a run. Its seed is the result of an earlier build, less the entries dropped from it since. */
  datatype BuildStep = BuildStep(seedFrom: Option<nat>, dropped: set<string>, files: seq<EnumeratedFile>, texts: Texts)

  function SeedOf(results: seq<Files>, step: BuildStep): Files {
    if step.seedFrom.Some? && step.seedFrom.value < |results| then results[step.seedFrom.value] - step.dropped else map[]
  }

  /** The results of the builds of a run, each seeded from the memo or the disk: some earlier result. */
  function Results(engine: Engine, run: seq<BuildStep>): (results: seq<Files>)
    ensures |results| == |run|
  {
    if run == [] then []
    else
      var step := run[|run| - 1];
      var results := Results(engine, run[..|run| - 1]);
      results + [Entries(engine, SeedOf(results, step), step.files, step.texts)]
  }

  ghost predicate QuarantinedStayReadable(engine: Engine, run: seq<BuildStep>) {
    forall k :: 0 <= k < |run| ==>
      QuarantinedReadable(SeedOf(Results(engine, run[..k]), run[k]), run[k].files, run[k].texts)
  }

  lemma {:induction false} RunKeepsProduced(engine: Engine, run: seq<BuildStep>)
    requires SoundEngine(engine)
    ensures forall k :: 0 <= k < |run| ==> ProducedFiles(engine, Results(engine, run)[k])
  {
    if run != [] {
      var init, step := run[..|run| - 1], run[|run| - 1];
      RunKeepsProduced(engine, init);
      BuildKeepsProduced(engine, SeedOf(Results(engine, init), step), step.files, step.texts);
    }
  }

  lemma PrefixStaysReadable(engine: Engine, run: seq<BuildStep>)
    requires run != [] && QuarantinedStayReadable(engine, run)
    ensures QuarantinedStayReadable(engine, run[..|run| - 1])
    ensures var step := run[|run| - 1];
      QuarantinedReadable(SeedOf(Results(engine, run[..|run| - 1]), step), step.files, step.texts)
  {
    var init := run[..|run| - 1];
    forall k | 0 <= k < |init|
      ensures QuarantinedReadable(SeedOf(Results(engine, init[..k]), init[k]), init[k].files, init[k].texts)
    {
      assert init[..k] == run[..k];
    }
  }

  lemma {:induction false} RunLosesNothing(engine: Engine, run: seq<BuildStep>)
    requires SoundEngine(engine) && QuarantinedStayReadable(engine, run)
    ensures forall k :: 0 <= k < |run| ==> NothingLost(engine, Results(engine, run)[k])
  {
    if run != [] {
      var init, step := run[..|run| - 1], run[|run| - 1];
      PrefixStaysReadable(engine, run);
      RunLosesNothing(engine, init);
      RunKeepsProduced(engine, init);
      BuildLosesNothing(engine, SeedOf(Results(engine, init), step), step.files, step.texts);
    }
  }

  /**
   * After every run: a readable file's entry is the fresh extraction of the bytes just read exactly when
   * the entry the last build started from is not one that lost a quarantine of the same bytes.
   */
  lemma {:induction false} FreshUnlessQuarantineLost(engine: Engine, run: seq<BuildStep>, path: string)
    requires SoundEngine(engine) && run != []
    requires path in Results(engine, run)[|run| - 1] && path in run[|run| - 1].texts
    ensures var step := run[|run| - 1];
      var seed, raw := SeedOf(Results(engine, run[..|run| - 1]), step), step.texts[path];
      exists f ::
        && f in step.files && f.path == path
        && (Results(engine, run)[|run| - 1][path] == Fresh(engine, f, raw)
            <==> !(path in seed && QuarantineLost(engine, seed[path], raw)))
  {
    var init, step := run[..|run| - 1], run[|run| - 1];
    RunKeepsProduced(engine, init);
    var seed := SeedOf(Results(engine, init), step);
    EntriesMembers(engine, seed, step.files, step.texts, path);
    var f :| f in step.files && f.path == path
      && Entries(engine, seed, step.files, step.texts)[path]
         == FileEntry(engine, Lookup(seed, path), f, ReadOf(step.texts, path));
    ReadableEntryIsFreshIff(engine, Lookup(seed, path), f, step.texts[path]);
  }

  /**
   * Incremental equals from scratch: on every run in which no quarantined file later becomes
   * unreadable, every readable file's entry is the fresh extraction of the bytes just read.
   */
  lemma IncrementalIsFromScratch(engine: Engine, run: seq<BuildStep>, path: string)
    requires SoundEngine(engine) && run != [] && QuarantinedStayReadable(engine, run)
    requires path in Results(engine, run)[|run| - 1] && path in run[|run| - 1].texts
    ensures exists f ::
      && f in run[|run| - 1].files && f.path == path
      && Results(engine, run)[|run| - 1][path] == Fresh(engine, f, run[|run| - 1].texts[path])
  {
    var init, step := run[..|run| - 1], run[|run| - 1];
    PrefixStaysReadable(engine, run);
    RunLosesNothing(engine, init);
    FreshUnlessQuarantineLost(engine, run, path);
    var seed := SeedOf(Results(engine, init), step);
    assert path in seed ==> !QuarantineLost(engine, seed[path], step.texts[path]);
  }

  /** Three builds that lose a quarantine: crash, unreadable, readable again with the same bytes. */
  lemma QuarantineCanBeLost(path: string, raw: string) returns (engine: Engine, run: seq<BuildStep>)
    ensures SoundEngine(engine) && |run| == 3 && run[2].texts == map[path := raw]
    ensures path in Results(engine, run)[0] && path in Results(engine, run)[2]
    ensures Results(engine, run)[0][path].parseStatus == Quarantined
    ensures Results(engine, run)[2][path].parseStatus == Ok && Results(engine, run)[2][path].symbols == []
    ensures forall f: EnumeratedFile :: f.path == path ==> Fresh(engine, f, raw).parseStatus == Quarantined
  {
    engine := Engine(HexOf, (p, text) => Crashed, (p, text) => "ts", text => [text], (name, line) => true);
    HexIsCollisionless();
    var f := EnumeratedFile(path, "ts", 1, 1);
    var first := BuildStep(None, {}, [f], map[path := raw]);
    var second := BuildStep(Some(0), {}, [f], map[]);
    var third := BuildStep(Some(1), {}, [f], map[path := raw]);
    run := [first, second, third];
    assert run[..2] == [first, second] && run[..2][..1] == [first] && [first][..0] == [];
    OneEntry(engine, map[], f, map[path := raw]);
    var results := Results(engine, [first]);
    assert SeedOf(results, second) == results[0];
    OneEntry(engine, results[0], f, map[]);
    var results2 := Results(engine, [first, second]);
    assert [first, second][..1] == [first];
    assert SeedOf(results2, third) == results2[1];
    OneEntry(engine, results2[1], f, map[path := raw]);
  }

  lemma OneEntry(engine: Engine, seed: Files, f: EnumeratedFile, texts: Texts)
    ensures Entries(engine, seed, [f], texts) == map[f.path := FileEntry(engine, Lookup(seed, f.path), f, ReadOf(texts, f.path))]
  {
    assert [f][..0] == [];
  }

  /** A collisionless hash to build examples with: two hex-like letters for every bit of every character. */
  function HexOf(raw: string): string {
    if raw == "" then "0" else Unary(raw[0] as nat) + "1" + HexOf(raw[1..])
  }

  function Unary(n: nat): (u: string)
    ensures |u| == n && forall i :: 0 <= i < n ==> u[i] == 'f'
  {
    seq(n, _ => 'f')
  }

  lemma {:induction false} HexInjective(x: string, y: string)
    requires HexOf(x) == HexOf(y)
    ensures x == y
  {
    if x != "" && y != "" {
      assert HexOf(x) == Unary(x[0] as nat) + ['1'] + HexOf(x[1..]);
      assert HexOf(y) == Unary(y[0] as nat) + ['1'] + HexOf(y[1..]);
      Merkle.CutAtFirst('1', Unary(x[0] as nat), HexOf(x[1..]), Unary(y[0] as nat), HexOf(y[1..]));
      HexInjective(x[1..], y[1..]);
      assert x == [x[0]] + x[1..] && y == [y[0]] + y[1..];
    } else {
      HexHasFirst(x);
      HexHasFirst(y);
    }
  }

  lemma HexHasFirst(x: string)
    ensures HexOf(x) != "" && (HexOf(x)[0] == '0' <==> x == "")
  {
    if x != "" {
      assert HexOf(x)[0] == (Unary(x[0] as nat) + "1")[0];
    }
  }

  lemma {:induction false} HexClean(x: string)
    ensures Merkle.Clean(HexOf(x)) && HexOf(x) != ""
  {
    if x != "" {
      HexClean(x[1..]);
    }
  }

  lemma HexIsCollisionless()
    ensures Merkle.Collisionless(HexOf) && forall raw :: HexOf(raw) != ""
  {
    forall x, y | HexOf(x) == HexOf(y)
      ensures x == y
    {
      HexInjective(x, y);
    }
    forall x
      ensures Merkle.Clean(HexOf(x)) && HexOf(x) != ""
    {
      HexClean(x);
    }
  }
}
