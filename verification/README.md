# TokenLighten, modelled and proved in Dafny

TokenLighten keeps a per-file index of a workspace, derived from the files' bytes, and everything it
answers rests on that index being what a fresh build would give. The project models how the index is
built, remembered, published and split over pieces on disk, the structures derived from it, and a few
self-contained algorithms elsewhere in the repository, and proves what each of them is for.

| module | models | main results |
|---|---|---|
| `IncrementalBuild` | the per-file loop with its cached seed | incremental equals from scratch on every run that loses no quarantine; the exact condition for one entry; a run that does lose one |
| `MemoProtocol` | the in-process memo, with invalidations, byte changes and loads interleaved | the whole-match shortcut and its consistency scan serve fresh hashes; an overtaken load never publishes |
| `PublishProtocol` | manifest, journal and graph renames with crashes between any two | after every quiet history the next completed call leaves the graph of the disk manifest; when it does not, exactly why; when their generations agree |
| `ShardedCache`, `ShardedProtocol`, `ShardedDirectory` | the sharded cache: piece names, concurrent writers and readers, the writer and reader themselves | a load is one published manifest or nothing; what one writer published loads back |
| `GraphBuilder` | the linear graph index, the saturating size bound, the assembled graph | index and graph agree, and what they hold from the files alone; the size gates reject exactly when, and which graph that fits; both ends of every edge |
| `Merkle`, `SourceIndex` | the directory digests | equal roots are equal contents |
| `Chunker`, `PageRank` | byte chunks with line cursors; personalised PageRank over reals | exact tiling; mass, lower bound and geometric settling of every iterate |
| `TokenDiff` | the token diff of the Go review, and the rename test | the diff is minimal; a rename is reported exactly when some renaming explains the edit |
| `RunOutput`, `TscBlocks` | the budgeted output summary and the collapsing of repeated diagnostics | best lines kept, within the limit, nothing dropped needlessly; only repeats go, every site once |
| `ArgvEscape`, `Jsonc`, `ManagedBlock` | command-line escaping, JSONC stripping, the managed block of a guide file | three transformations read back: arguments, tokens, and the user's own text; how many passes rewriting takes, and what the modes that do not write leave |
| `McpHandshake`, `HookSetup` | the handshake's event handlers; locked install and removal of hook files | the outcome ignores chunking, is success exactly when, and names the stage that failed; no foreign file is replaced; which stops strand the files |
| `Wrappers`, `Strings`, `Sorting` | shared helpers | |

Code that updates state in place is a method with loops, or a class with `modifies` clauses, proved
against a specification function or predicate; pure code is functions. The protocols whose point is
what happens between two renames (`MemoProtocol`'s runs, `PublishProtocol`, `ShardedProtocol`,
`HookSetup`'s runs) are state machines whose steps are the source's atomic file operations, so that
a crash, a second process or an edit can come between any two.

What the model takes as given: SHA-256 and the derived piece keys do not collide (`Collisionless`,
`SoundStore`) and their digests contain no tab or newline; extraction is a function of path and text
that may fail; names and paths are free of the tab and newline characters that separate digest lines,
and of the zero character; serialisation is invertible and its size is a function of the content.
The tests on a guide file's text (its version and hash lines, its frontmatter's name, guidance by
hand) do not depend on which line ends it has (`EndingsUnseen`): their patterns are words on one line,
or skip blanks at its end. Library orders (`localeCompare`, string order where nothing depends on
which) are parameters.

## Where the code does less than its documentation or its callers may expect

Each of these is a lemma; beside it stands a theorem that says when the code does meet the property.
It is an equivalence except for the engine upgrade and the unreported change, where the condition is
sufficient: an old engine's graph may happen to be right, and an unreported change may change nothing.

- A `quarantined` file that becomes unreadable and then readable again with the same bytes ends as
  "ok" without symbols (`IncrementalBuild.QuarantineCanBeLost`).
- The graph size pre-check rejects a graph whose bound fits when the counters of a name that nobody
  references overflow (`GraphBuilder.PrecheckCanRejectFittingGraph`); it takes a path of half a
  billion characters, and the exact condition is `UnreferencedOverflow`.
- A crash between the manifest rename and the journal rename right after an engine upgrade keeps the
  old engine's graph for as long as the content stays the same
  (`PublishProtocol.UpgradeCrashKeepsOldGraph`).
- Two such crashes over the contents A, B, A leave the graph's `generation` behind
  (`PublishProtocol.TwoCrashesLeaveGenerationBehind`). When a call leaves equal generations is
  `PublishProtocol.CompletedGenerationsAgreeIff`; on which histories, with every condition these need,
  `PublishProtocol.GenerationsStayInStep`.
- A build overtaken by an invalidation leaves the memo's idea of what is on disk outdated; if the
  content then goes back, the manifest write is skipped and the graph no longer belongs to the manifest
  on disk (`PublishProtocol.OvertakenRollbackSplitsThePair`).
- An over-cap graph is not written, but the journal is cleared (`PublishProtocol.OverCapClearsJournal`),
  and a scan repair rewrites the manifest only (`PublishProtocol.RepairLeavesGraphBehind`); the next
  completed call under the cap puts both right (`PublishProtocol.CrashSafety`).
- A same-stat change that no invalidation reports is served from the memo when the consistency scan is
  off, out of time or skipped as already clean in its scope
  (`MemoProtocol.UnreportedSameStatChangeIsServedStale`); a scan that reads the file drops the entry.
- A head that was published can fail to load, because another writer unlinks a piece it had listed
  before (`ShardedProtocol.PublishedHeadLosesPiece`).
- The reader of the sharded cache bounds a piece's compressed size, the writer only its uncompressed
  size: a piece that compression made larger than the limit would be published and not load
  (`ShardedDirectory.WrittenLoadsBack`).
- The program name on a Windows command line knows no escapes, so `buildBatchCommandLine` is read back
  whole exactly when the command has no quote and no trailing backslash
  (`ArgvEscape.ProgramNameRoundTripsIff`). The arguments always read back.
- Every file path is also registered as a directory, so a file's `childHashes` slot holds the hash of
  an empty directory; the root hash is not weakened by it, and paths need not be prefix-free
  (`Merkle.EqualRootsEqualContents`).
- A hook setup that crashes or fails after some of its files can leave files that no later setup
  takes back or removes: after the runner of a first install; after a refresh's runner, if it differs
  from the one the old record lists; after a refresh's record, if the config is to differ. At every
  other stop, and at every stop of a removal, setup can go on (`HookSetup.StoppedIsOwnedIff`,
  `HookSetup.StrandedStays`).
- `rewrite` takes one more pass for each carriage return that is left before a line feed, or each
  byte-order mark left in front (`ManagedBlock.PassesToSettle`,
  `ManagedBlock.CarriageReturnsTakeOneMorePass`).
- A file whose only end mark stands before its only start mark is not refused: `rewrite` appends a
  block, and refuses the file from then on (`ManagedBlock.EndBeforeStartIsAppended`). Which texts are
  refused is `ManagedBlock.RefusedIff`.
- A symbol graph built from an earlier one keeps the edges of unchanged files to symbols that are gone
  (`PageRank.RemovedTargetIsCopied`, `PageRank.BuildSymbolGraph`).
- A character of the handshake's output that is cut by a chunk is decoded as two texts
  (`McpHandshake.CutCharacterCanMatter`).

## Model

| member | source | states |
|---|---|---|
| `IncrementalBuild.IncrementalIsFromScratch` | packages/skeleton-engine/src/indexStore.ts:997-1258 | On every run of builds in which no quarantined file later becomes unreadable, each readable file ends with the fresh extraction of the bytes just read and the stat just enumerated, whatever entries the run had cached. |
| `IncrementalBuild.ReadableEntryIsFreshIff` | packages/skeleton-engine/src/indexStore.ts:754-758 | For one file and any entry this code can have produced: the new entry equals the fresh extraction if and only if the cached one is not a `failed` entry that had lost a quarantine of these very bytes. Its content hash is that of the bytes and its status is never `failed`, in every case. |
| `IncrementalBuild.FreshUnlessQuarantineLost` | packages/skeleton-engine/src/indexStore.ts:997-1258 | The same after every run of builds, whatever was unreadable on it: a readable file's entry is fresh if and only if the entry the last build started from has not lost a quarantine of the same bytes. |
| `IncrementalBuild.RunLosesNothing` | packages/skeleton-engine/src/indexStore.ts:1038-1039 | On such a run no build ever produces an entry that has lost its quarantine, at any point of the run. |
| `IncrementalBuild.QuarantineCanBeLost` | packages/skeleton-engine/src/indexStore.ts:1038-1039 | The condition is needed: three builds (extraction crashes, file unreadable, file readable again with the same bytes) end in "ok" with no symbols where a fresh build says `quarantined`. |
| `IncrementalBuild.EntryIsProduced` | packages/skeleton-engine/src/indexStore.ts:1012-1258 | Every branch of the per-file loop keeps entries of one form: a placeholder, or the extraction of some text under its own hash, possibly restamped `failed` or with that status stripped. |
| `IncrementalBuild.ProcessFile` | packages/skeleton-engine/src/indexStore.ts:1012-1258 | One turn of the loop. An unreadable file keeps its cached entry in every field but the status, which becomes `failed`, or gets a placeholder without hash and symbols. A read file keeps its entry, restamped, exactly when the hash matched and the cached symbols were in place; else it gets what the parsers say of the bytes just read, `quarantined` if they threw. |
| `IncrementalBuild.BuildFileEntries` | packages/skeleton-engine/src/indexStore.ts:997-1258 | The whole loop builds the entries of the freshness theorems for the enumerated files; nothing is reparsed if and only if every file that was read has in the seed an entry of these bytes whose symbols are in place. |
| `IncrementalBuild.ValidateCachedSymbols` | packages/skeleton-engine/src/indexStore.ts:708-732 | The early-exit scan accepts exactly when every cached symbol has a word match on some line from two before its first (counted from 1) to two after its last, cut at the ends of the file. |
| `MemoProtocol.ShortcutIsFresh` | packages/skeleton-engine/src/indexStore.ts:946-982 | For every interleaving of loads, scans, file changes and invalidations, at every point of the consistency scan of a load that took the shortcut: it returns entries for exactly the paths it enumerated less those the scan dropped. An entry the scan read is kept only with the hash of the bytes read, whatever was reported; another non-failed one only with the hash of bytes that path has held since the load statted it, if no unreported change was outstanding then; and with the hash of the bytes on disk now if the stat is still current, no unreported change is outstanding and no invalidation has come since the hit. |
| `MemoProtocol.MatchingMemoIsNewerThanInvalidation` | packages/skeleton-engine/src/indexStore.ts:293-346 | On every run, an entry that can match was built by a load that began after the last invalidation. |
| `MemoProtocol.OvertakenNeverPublishes` | packages/skeleton-engine/src/indexStore.ts:1365-1387 | A load whose epoch is not the current one leaves the memo as it is when it finishes, and the epoch only ever moved forward. |
| `MemoProtocol.UnreportedSameStatChangeIsServedStale` | packages/skeleton-engine/src/indexStore.ts:956-974 | The condition on changes is needed where the scan does not get to: a run in which a same-stat change that nothing reported is served stale, its scan being off, out of time or skipped as clean in its scope. Had the scan read the file, the entry would have been dropped. |
| `MemoProtocol.StepKeepsInvariant` | packages/skeleton-engine/src/indexStore.ts:293-346 | Every step (change, report, start, stat, seed, read, publish, scan repair, drop) keeps the invariant that ties memo and loads in flight to the bytes each path has held. |
| `MemoProtocol.RunKeepsInvariant` | packages/skeleton-engine/src/indexStore.ts:932-982 | So does every run from an empty memo, whatever the disk holds at the start. |
| `MemoProtocol.ManifestMemo.Invalidate` | packages/skeleton-engine/src/indexStore.ts:293-346 | The epoch moves whether or not there is an entry; an existing entry loses exactly the named files, can no longer match, and becomes the most recent one; other workspaces stay as they are. |
| `MemoProtocol.ManifestMemo.TakeShortcut` | packages/skeleton-engine/src/indexStore.ts:946-961 | A hit finds the remembered manifest exactly if ignore hash and fingerprint are the same and the commit, where one is asked for, is the one it was built from; it changes nothing but recency. |
| `MemoProtocol.ManifestMemo.ServeHit` | packages/skeleton-engine/src/indexStore.ts:780-827 | A hit returns the found manifest if the scan is off or skipped. Otherwise the files served are the found ones without exactly the examined ones that cannot be read or have another hash, so each examined one served has the hash of its bytes; with some dropped, root hash and generation are those of the files served and the next one, and if the repair could be written it becomes a seed that cannot match, unless an invalidation came in between. |
| `MemoProtocol.ManifestMemo.Publish` | packages/skeleton-engine/src/indexStore.ts:1365-1387 | Publishes exactly when the epoch is the one the load started with; the new entry is the most recent, at most the oldest other one goes, and the size limit holds. |
| `MemoProtocol.ManifestMemo.Repair` | packages/skeleton-engine/src/indexStore.ts:793-815 | A repaired manifest replaces the entry as a seed that cannot match, unless an invalidation came in between. |
| `PublishProtocol.CrashSafety` | packages/skeleton-engine/src/indexStore.ts:1287-1363 | After every history of crashes, failed writes, damaged journals, over-cap graphs, scan repairs and invalidations between calls, in which the engine version stays, no load is overtaken and a replaced cache form is removed, the next completed call leaves on disk the graph of the manifest on disk. |
| `PublishProtocol.CompletedGraphIsOfDiskIff` | packages/skeleton-engine/src/indexStore.ts:1313-1339 | After any history at all, with no graph or disk cache of another engine version: the completed call leaves the graph of the disk manifest if and only if it did not skip the manifest write on a wrong belief about what is on disk. |
| `PublishProtocol.CompletedGraphIsOfManifest` | packages/skeleton-engine/src/indexStore.ts:1345-1363 | Whatever came before, unless another version's graph is kept, the completed call leaves the graph of the manifest it assembled and no journal. The generation on it has theorems of its own, the next two. |
| `PublishProtocol.CompletedGenerationsAgreeIff` | packages/skeleton-engine/src/indexStore.ts:1287-1363 | From any state: a completed call leaves the graph with the generation of the manifest if and only if it writes its manifest, or the manifest already on disk has the generation of the graph that stays or, where none does, of the one about to be rebuilt. |
| `PublishProtocol.GenerationsStayInStep` | packages/skeleton-engine/src/indexStore.ts:1313-1387 | After every history in which each manifest is written and followed by its journal with no crash or failure between them, a replaced cache form is removed, no publication or repair is overtaken by an invalidation (`OvertakenRollbackSplitsThePair` is a history with one, and ends with unequal generations and no journal), and a graph left out as over the cap or a scan repair meets no graph that goes by the manifest's root hash with another generation: the next completed call leaves equal generations. Crashes elsewhere, upgrades, failed graph writes and damaged journals do no harm. |
| `PublishProtocol.StepKeepsPace` | packages/skeleton-engine/src/indexStore.ts:1313-1387 | Every step of such a history keeps the pair in step or leaves a journal that forces the rebuild, a repair and its two file operations included. |
| `PublishProtocol.JournalForcesRebuild` | packages/skeleton-engine/src/indexStore.ts:1347-1359 | On every run, a pending or corrupt journal is removed only by a call that did not take the root-hash shortcut. |
| `PublishProtocol.RunKeepsInvariant` | packages/skeleton-engine/src/indexStore.ts:1287-1387 | On every run the manifests, memo and graph on hand are each what some run of their engine version made. |
| `PublishProtocol.StepKeepsInvariant` | packages/skeleton-engine/src/indexStore.ts:1287-1387 | Every step keeps that, crashes, upgrades and repairs included. |
| `PublishProtocol.OverCapClearsJournal` | packages/skeleton-engine/src/indexStore.ts:1347-1359 | An over-cap call that writes its manifest leaves the graph file as it was and no journal: the pair matches exactly if the old graph happened to be the new manifest's. |
| `PublishProtocol.RepairLeavesGraphBehind` | packages/skeleton-engine/src/indexStore.ts:780-827 | A scan repair that drops an entry leaves a graph that was right no longer right, beside the repaired manifest. |
| `PublishProtocol.RepairWritesLaterManifest` | packages/skeleton-engine/src/indexStore.ts:793-815 | A repair that drops an entry and is written leaves on disk, and in the memo as a seed, the manifest without the dropped files, with their root hash and the next generation; journal and graph stay, and a repair that drops nothing or is not written changes nothing. |
| `PublishProtocol.GenerationCountsChanges` | packages/skeleton-engine/src/indexStore.ts:1287-1304 | A call assembles the entries of the enumerated files, and its generation is the seed's exactly when paths and content hashes are the seed's, else the next one, and the first one without a seed. |
| `PublishProtocol.WriteIsSkippedIff` | packages/skeleton-engine/src/indexStore.ts:1313-1339 | The manifest write is skipped exactly when the root hash believed to be on disk, as the memo records it or as just loaded from this version's cache, is the new one and every file read reuses its seed entry. |
| `PublishProtocol.UpgradeCrashKeepsOldGraph` | packages/skeleton-engine/src/indexStore.ts:1313-1339 | The exception on engine versions is needed: a crash before the journal right after an upgrade, and the old graph stays with a matching root hash. |
| `PublishProtocol.TwoCrashesLeaveGenerationBehind` | packages/skeleton-engine/src/indexStore.ts:1287-1293 | The exception on `generation` is needed: two crashes over contents A, B, A leave generations 3 and 1 beside an equal root hash, and no later call on this content writes anything. |
| `PublishProtocol.OvertakenRollbackSplitsThePair` | packages/skeleton-engine/src/indexStore.ts:1365-1387 | The condition on the belief is needed: an overtaken call, then a rollback of the content, and the graph of one content stays beside the manifest of the other. |
| `PublishProtocol.SmallWorldExists` | packages/skeleton-engine/src/indexStore.ts:1287-1363 | The workspace of one file that the last three runs take place on exists: extraction, hashing and orders as these runs ask for. |
| `SourceIndex.RootHashIdentifiesContents` | packages/skeleton-engine/src/indexStore.ts:1267-1272 | Two manifests with one root hash list the same paths with the same content hashes. |
| `MemoProtocol.RunConsistencyScan` | packages/skeleton-engine/src/consistencyScan.ts:181-246 | Drops exactly those of the examined files that cannot be read or have another hash, so each examined file that is left has the hash of its bytes; the files returned are the others, under their own root hash and the next generation; with none dropped the manifest is returned as it is. |
| `PublishProtocol.RootHashDeterminesGraph` | packages/skeleton-engine/src/graphBuilder.ts:286-367 | What the root-hash shortcut relies on: two manifests of one engine version with one root hash have the same graph, although root hashes cover content only and the graph is built from symbols. |
| `GraphBuilder.SameGraph` | packages/skeleton-engine/src/graphBuilder.ts:192-222 | The graph depends on paths, symbols and outgoing names only, not on the rest of an entry. |
| `GraphBuilder.ImportsFromFiles` | packages/skeleton-engine/src/graphBuilder.ts:206-219 | From the files alone: in the assembled graph, file p imports q if and only if they differ and some name among p's outgoing ones is the name of no symbol of p and of some symbol of q. |
| `GraphBuilder.SymbolsFromFiles` | packages/skeleton-engine/src/graphBuilder.ts:192-205 | Each graph symbol is a symbol of some file, at that symbol's first line; a file is among its references if and only if the name is among that file's outgoing ones and none of its own symbols is so named. |
| `GraphBuilder.MentionedSymbolIsThere` | packages/skeleton-engine/src/graphBuilder.ts:192-205 | The other way round: a symbol whose name some file mentions without defining it is in the graph. |
| `GraphBuilder.IndexFromFiles` | packages/skeleton-engine/src/graphBuilder.ts:105-152 | The index holds for each name exactly the symbols so named with file and first line, and exactly the files that mention it without defining it. |
| `GraphBuilder.ReferenceFromFiles` | packages/skeleton-engine/src/graphBuilder.ts:129-142 | A file refers to a name exactly when the name is among its outgoing ones, some file defines it and this file does not. |
| `GraphBuilder.ExportsFromFile` | packages/skeleton-engine/src/graphBuilder.ts:206-219 | A listed file exports the names of its symbols, as often as it has them. |
| `GraphBuilder.ImportIffReference` | packages/skeleton-engine/src/graphBuilder.ts:192-222 | In the assembled graph, file p imports q if and only if some symbol defined in q lists p among its references. |
| `GraphBuilder.ReferencesSurviveFilter` | packages/skeleton-engine/src/graphBuilder.ts:192-205 | Every reference recorded for a name is listed at each of its definitions: the filter by path never drops one, because a file's own names are skipped on indexing. |
| `GraphBuilder.CountsAgree` | packages/skeleton-engine/src/graphBuilder.ts:105-152 | The counts of the linear index are the lengths of the assembled graph's symbol and file lists. |
| `GraphBuilder.ListedIffInGraph` | packages/skeleton-engine/src/graphBuilder.ts:143-147 | A file the index counted is one the assembled graph lists, and the other way round. |
| `GraphBuilder.BoundIsEstimateWithoutImports` | packages/skeleton-engine/src/graphBuilder.ts:272-284 | The unsaturated linear bound is the estimate over the assembled graph less the lengths of the import paths. |
| `GraphBuilder.EstimateIsLowerBound` | packages/skeleton-engine/src/graphBuilder.ts:272-284 | The estimate never exceeds the bytes of the compact JSON that would be written, for any encoding that spends at least one byte on each UTF-16 unit and two on the quotes. |
| `GraphBuilder.FittingGraphIsRejectedIff` | packages/skeleton-engine/src/graphBuilder.ts:335-351 | So a graph whose file would fit under the cap passes both gates, unless a name nobody references overflows a counter: then, and only then, the gate before assembly rejects it. |
| `GraphBuilder.PrecheckRejectsExactly` | packages/skeleton-engine/src/graphBuilder.ts:174-191 | With saturation and all: a finite cap up to 2^53 - 1 is exceeded exactly when the true bound exceeds it or a counter of an unreferenced name has overflowed. |
| `GraphBuilder.PrecheckCanRejectFittingGraph` | packages/skeleton-engine/src/graphBuilder.ts:97-103 | The second half of that is needed: one file with 2^24 + 1 symbols and a path of half a billion characters has a bound within the cap, and every index of it makes the pre-check reject. |
| `GraphBuilder.IndexGraphManifest` | packages/skeleton-engine/src/graphBuilder.ts:105-152 | The two passes leave, for every name, its definitions and references in source order and counters that are the exact sums, saturated; and the overflow flag set exactly when one of them was. |
| `GraphBuilder.EstimateIndexedGraphMinBytes` | packages/skeleton-engine/src/graphBuilder.ts:174-186 | Adding up the per-name summaries gives the true bound, saturated, whatever the order of names. |
| `GraphBuilder.LowerBound.AddProduct` | packages/skeleton-engine/src/graphBuilder.ts:161-168 | Adds the product, and overflows exactly when a factor or the sum is out of range, whatever the factors; the division guard never misjudges. |
| `GraphBuilder.LowerBound.Add` | packages/skeleton-engine/src/graphBuilder.ts:154-160 | Adds, and overflows exactly when the sum is out of range; an overflown bound stays. |
| `GraphBuilder.AssembleTlGraph` | packages/skeleton-engine/src/graphBuilder.ts:192-222 | The nested loops over names, definitions, files and references assemble the graph that the agreement theorems are about. |
| `Merkle.EqualRootsEqualContents` | packages/skeleton-engine/src/merkle.ts:51-170 | Equal root hashes imply equal maps from path to content hash, with no demand that paths be prefix-free. |
| `Merkle.EqualHashesEqualSubtrees` | packages/skeleton-engine/src/merkle.ts:109-138 | The same for any directory: equal hashes imply the same files with the same contents below it. |
| `Merkle.EqualHashesEqualChildren` | packages/skeleton-engine/src/merkle.ts:117-137 | One level: equal hashes imply that each name is the same file in both, with the same subdirectory hash. |
| `Merkle.LinesDetermineEntries` | packages/skeleton-engine/src/merkle.ts:136-137 | The hashed text can be read back: names without tab or newline make its lines unambiguous. |
| `Merkle.FileNameFollowed` | packages/skeleton-engine/src/merkle.ts:114-137 | Which names are files can be read back too, because a file's name is listed a second time as a directory. |
| `Merkle.ContentsIgnoreOrder` | packages/skeleton-engine/src/merkle.ts:64-82 | With distinct paths the digests do not depend on the order of the input files. |
| `Merkle.BuildDirectoryDigests` | packages/skeleton-engine/src/merkle.ts:51-170 | For relative paths, root, directory set, child hashes and directory hashes are the recursively defined ones, on every list of files, including the empty one. |
| `Merkle.HashDirectories` | packages/skeleton-engine/src/merkle.ts:100-138 | Deepest first, every directory gets its recursive hash: each child was hashed before, so the fallback hash is never used. |
| `Merkle.SubdirsComeFirst` | packages/skeleton-engine/src/merkle.ts:102-110 | In the sorted order a subdirectory stands before its parent. |
| `Merkle.HashDirectory` | packages/skeleton-engine/src/merkle.ts:114-137 | One directory's hash is that of its files and subdirectories sorted by name, a file before a directory of the same name. |
| `Merkle.OneFileDirectory` | packages/skeleton-engine/src/merkle.ts:114-137 | A directory with one file hashes two lines of the file's name: its content hash first, then the empty directory its path is registered as. |
| `Merkle.EmptyDirectory` | packages/skeleton-engine/src/merkle.ts:45-62 | A directory without files has the hash of the empty text. |
| `Merkle.LessAtFirstDifference` | packages/skeleton-engine/src/merkle.ts:134-134 | Names are ordered by the first code unit that differs, a prefix before the longer name. |
| `Merkle.RegisterFile` | packages/skeleton-engine/src/merkle.ts:69-82 | One file adds itself to its parent and makes all its ancestors, and itself, directories; nothing else changes. |
| `Merkle.RegisterSubdirs` | packages/skeleton-engine/src/merkle.ts:84-98 | After the second step each directory has exactly the names registered below it. |
| `ShardedProtocol.LoadIsNeverAMixture` | packages/skeleton-engine/src/shardedManifest.ts:103-208 | For any number of writers, removals, readers and crashes, interleaved piece by piece: a load gives nothing or exactly the manifest whose head was in place when it read the head. |
| `ShardedProtocol.PublishedHeadLosesPiece` | packages/skeleton-engine/src/shardedManifest.ts:103-208 | Nothing is a possible answer without any failure: a run of two writers in which the first unlinks a piece of the second after the second has published its head, and a load of that head fails. |
| `ShardedProtocol.RunKeepsInvariant` | packages/skeleton-engine/src/shardedManifest.ts:103-208 | On every run, each piece on disk holds the content its name stands for, each head is that of a published manifest, and each reader has only pieces of its own head. |
| `ShardedProtocol.StepKeepsInvariant` | packages/skeleton-engine/src/shardedManifest.ts:103-304 | Every atomic step keeps that: piece rename, head rename, head or piece unlink, piece read, crash. |
| `ShardedDirectory.LoadIsOnePublishedManifest` | packages/skeleton-engine/src/shardedManifest.ts:103-208 | The same for this code's own naming and content of pieces, the directories piece included. |
| `ShardedCache.PieceNameDeterminesContent` | packages/skeleton-engine/src/shardedManifest.ts:127-149 | Pieces of the same name have the same content, whichever manifest they were written for: why a piece on disk may be reused and a concurrent writer's piece is as good. |
| `ShardedCache.KeyFieldsDetermineEntry` | packages/skeleton-engine/src/shardedManifest.ts:131-136 | Within one engine version an index entry is determined by the five fields in its piece's key; for placeholders, which carry no hash, by these and their language. |
| `ShardedDirectory.WrittenLoadsBack` | packages/skeleton-engine/src/shardedManifest.ts:103-208 | What one undisturbed writer published, an undisturbed load returns; unless a piece's compressed form is over the limit that only the reader applies, and then it returns nothing. |
| `ShardedDirectory.BucketsMerge` | packages/skeleton-engine/src/shardedManifest.ts:114-143 | Splitting by bucket loses nothing: the pieces of the first k buckets read back as exactly the files in them. |
| `ShardedDirectory.FillBuckets` | packages/skeleton-engine/src/shardedManifest.ts:114-115 | Each bucket gets its paths, in sorted order. |
| `ShardedDirectory.ShardPieces` | packages/skeleton-engine/src/shardedManifest.ts:124-143 | One piece for each non-empty bucket, in bucket order. |
| `ShardedDirectory.CacheDirectory.WriteShardedManifest` | packages/skeleton-engine/src/shardedManifest.ts:103-171 | Publishes exactly what fits the limits on one piece and on all of them; then the head names exactly this manifest's pieces and no other piece remains; otherwise the head that was there stands. |
| `ShardedDirectory.CacheDirectory.EnsurePiece` | packages/skeleton-engine/src/shardedManifest.ts:237-260 | The piece's size, written or reused; nothing exactly when the piece is too large; no piece on disk is lost or spoilt. |
| `ShardedDirectory.CacheDirectory.EnsureAll` | packages/skeleton-engine/src/shardedManifest.ts:117-148 | Goes through exactly when each piece and all together fit, and then every piece is on disk with its size recorded. |
| `ShardedDirectory.CacheDirectory.LoadShardedManifest` | packages/skeleton-engine/src/shardedManifest.ts:174-208 | Loads what head and pieces spell, or nothing when one is absent, oversized, of another size, listed under another path or short of the head's count. |
| `ShardedDirectory.LoadsExactly` | packages/skeleton-engine/src/shardedManifest.ts:174-208 | What a load returns, from the disk alone: something exactly when the head is there, the sizes it lists come to at most 1 GiB, every piece is there with the size listed and a compressed form of at most 256 MiB, all entries are listed under their own path, and the shards have as many paths as the head says; then the head's fields, for each path the entry of the last shard that has it, and the directories. |
| `ShardedDirectory.CacheDirectory.ReadShards` | packages/skeleton-engine/src/shardedManifest.ts:335-347 | The shared-counter workers, finishing in any order, leave every piece at its own index. |
| `ShardedDirectory.CacheDirectory.RemovePiecesExcept` | packages/skeleton-engine/src/shardedManifest.ts:282-304 | Exactly the named pieces remain. |
| `Chunker.MakeTextChunks` | packages/skeleton-engine/src/chunker.ts:87-139 | A text's chunks partition all its bytes, none over 1600 and all but the last full, each with the line of its first byte and the last line starting before its end. |
| `Chunker.ExtractChunks` | packages/skeleton-engine/src/chunker.ts:149-252 | Chunks are those of the symbols one after another, as each symbol's callback is told, or the text's when there are none. |
| `Chunker.ChunkSymbol` | packages/skeleton-engine/src/chunker.ts:175-250 | A symbol's chunks cover exactly its clamped lines: one chunk up to 1600 bytes, else numbered slices that partition the range. |
| `Chunker.LinesWithin` | packages/skeleton-engine/src/chunker.ts:180-183 | A symbol's first and last line are taken as they are within the file, otherwise as the nearest of its lines, the last never before the first. |
| `Chunker.Slice` | packages/skeleton-engine/src/chunker.ts:208-248 | Slicing partitions any byte range that lies on the given lines, each slice with its own lines. |
| `Chunker.FindLines` | packages/skeleton-engine/src/chunker.ts:106-114 | Both forward cursors stop where a full scan of the file would. |
| `Chunker.BuildByteOffsets` | packages/skeleton-engine/src/chunker.ts:71-85 | The offsets before the last are exactly 0 and the positions after each LF, CR or CRLF, in order; the last is the length. |
| `Chunker.CursorHolds` | packages/skeleton-engine/src/chunker.ts:106-109 | The last offset not past a byte is that of the byte's line, counted by scanning from the start. |
| `Chunker.CursorBefore` | packages/skeleton-engine/src/chunker.ts:110-114 | The last offset before an end is that of the last line that starts before it. |
| `PageRank.IteratesSettle` | packages/skeleton-engine/src/pagerank.ts:58-88 | Successive iterates differ by at most d^k times the first difference. |
| `PageRank.NextContracts` | packages/skeleton-engine/src/pagerank.ts:73-86 | One iteration brings any two score vectors closer by the factor d. |
| `PageRank.MassIsBounded` | packages/skeleton-engine/src/pagerank.ts:58-88 | No iterate holds more total score than the personalization. |
| `PageRank.MassIsKept` | packages/skeleton-engine/src/pagerank.ts:73-86 | And exactly as much when every node has a weighted edge to somewhere. |
| `PageRank.MassOfNext` | packages/skeleton-engine/src/pagerank.ts:73-86 | The total of one iteration: (1 - d) of the personalization and d of the scores of the nodes with weighted edges. |
| `PageRank.FlowSums` | packages/skeleton-engine/src/pagerank.ts:77-84 | All that flows is the score of the sources that have somewhere to send it: shares add up to one. |
| `PageRank.SourceAdds` | packages/skeleton-engine/src/pagerank.ts:76-84 | What one source adds to one iteration: each target gets d times the source's score times the edge's part of the source's weight, every other node nothing. |
| `PageRank.ScoresAtLeastRestart` | packages/skeleton-engine/src/pagerank.ts:58-88 | Every score of every iterate is at least (1 - d) times its personalization, and not negative. |
| `PageRank.RunPersonalizedPageRank` | packages/skeleton-engine/src/pagerank.ts:58-88 | The nested loops compute the k-th iterate: with no iterations each node's own personalization where one is given and 1/N elsewhere; with any number and non-negative inputs every score is at least (1 - d) of that value, and the total at most the total of these values. |
| `PageRank.BuildSymbolGraph` | packages/skeleton-engine/src/pagerank.ts:125-198 | The graph has exactly one node for each symbol, edges that are copied for the symbols of unchanged files and scanned for the others, at most 50 scanned edges a source. It meets the precondition of all of the above if every copied edge leads to a symbol that is still there, and only then if no two files spell a node alike; without an earlier graph it always does. |
| `PageRank.RemovedTargetIsCopied` | packages/skeleton-engine/src/pagerank.ts:155-167 | The condition is needed: the edge of an unchanged file to a symbol that is gone is copied, and leads out of the nodes. |
| `PageRank.ScanSymbol` | packages/skeleton-engine/src/pagerank.ts:169-193 | One symbol's edges lead to symbols of other files whose names the file mentions, to all of them when fewer than 50. |
| `PageRank.SourcesFromFiles` | packages/skeleton-engine/src/pagerank.ts:153-193 | Each source from the files alone: a copy belongs to a file whose modification time is positive and the recorded one; any other source leads to at most 50 symbols of other names, mentioned in the file and not spelt as its own, to all of them if there are fewer. |
| `PageRank.IndexSymbols` | packages/skeleton-engine/src/pagerank.ts:134-152 | The name index lists, under each name, exactly the symbols so named. |
| `TokenDiff.ChangedTokens` | packages/mcp-server/src/goReturnedLocalReview.ts:406-430 | Undefined exactly when the trimmed middles are non-empty and over the cell limit; else deleting the removed and the added indexes leaves equal texts whose length is that of a longest common subsequence of the full inputs. |
| `TokenDiff.MinimalDiffDeletesLeast` | packages/mcp-server/src/goReturnedLocalReview.ts:406-430 | Such a diff leaves the longest common subsequence there is, and no other pair of deletions that leaves equal texts deletes less. |
| `TokenDiff.LcsBoundsCommonSubseq` | packages/mcp-server/src/goReturnedLocalReview.ts:400-405 | The recursively defined length bounds every common subsequence. |
| `TokenDiff.LcsTrimmed` | packages/mcp-server/src/goReturnedLocalReview.ts:407-412 | Trimming a common head and tail takes off exactly their lengths. |
| `TokenDiff.GuardFitsUint16` | packages/mcp-server/src/goReturnedLocalReview.ts:399-415 | Under the cell limit one side has at most 2000 tokens. |
| `TokenDiff.EntryIsExact` | packages/mcp-server/src/goReturnedLocalReview.ts:418-421 | So every table entry is the exact length for the two suffixes and survives the store into 16 bits. |
| `TokenDiff.FillTable` | packages/mcp-server/src/goReturnedLocalReview.ts:416-421 | The bottom-up fill leaves the exact length for every pair of suffixes. |
| `TokenDiff.TableDecides` | packages/mcp-server/src/goReturnedLocalReview.ts:424-427 | Comparing two neighbours tells which side can lose its token at no cost. |
| `TokenDiff.Traceback` | packages/mcp-server/src/goReturnedLocalReview.ts:422-429 | The greedy walk deletes a minimal set, positions counted from the trimmed head. |
| `TokenDiff.CompareMiddles` | packages/mcp-server/src/goReturnedLocalReview.ts:412-429 | Comparing the middles only gives a minimal diff of the whole texts. |
| `TokenDiff.TrimHead` | packages/mcp-server/src/goReturnedLocalReview.ts:407-408 | The common head is found whole: it ends with an input or before the first difference. |
| `TokenDiff.TrimTail` | packages/mcp-server/src/goReturnedLocalReview.ts:409-411 | So is the common tail of what is left, which never overlaps the head. |
| `TokenDiff.IsRenameOnly` | packages/mcp-server/src/goReturnedLocalReview.ts:541-556 | True exactly when some consistent, injective renaming of declared names to unused names, not empty, turns the old tokens into the new. |
| `TokenDiff.CollectedIsForced` | packages/mcp-server/src/goReturnedLocalReview.ts:544-550 | Any such renaming contains what the loop has collected, and at the end is what it has collected. |
| `TokenDiff.CollectPairs` | packages/mcp-server/src/goReturnedLocalReview.ts:544-550 | The loop collects every differing pair, or stops where no renaming can explain the edit. |
| `TokenDiff.RenamingDecided` | packages/mcp-server/src/goReturnedLocalReview.ts:551-555 | The final tests hold exactly when such a renaming exists. |
| `TokenDiff.RenamingBlocked` | packages/mcp-server/src/goReturnedLocalReview.ts:546-548 | An early `false` is right: from then on no renaming exists. |
| `TokenDiff.AsManyTargets` | packages/mcp-server/src/goReturnedLocalReview.ts:552-553 | Comparing the numbers of targets and sources is comparing for injectivity. |
| `RunOutput.CompressRunOutput` | packages/cli/src/runOutput.ts:616-661 | Unless no line is kept, the result has at most the bytes asked for, 512 where less is asked and 4096 where nothing is; kept lines are in source order; no line left out has a better tier than a kept one; the summary is tight: what was left out either did not fit or, with it put back, made the summary too long. |
| `RunOutput.CandidatesAre` | packages/cli/src/runOutput.ts:621-628 | The candidates are exactly the lines with a tier, each in its place, whole up to 400 characters and else their first 399 and a mark. |
| `RunOutput.BlocksIff` | packages/cli/src/runOutput.ts:637-642 | What having no room means: header, a reserve of 80 bytes with failure lines and 40 without, the chosen lines and this one come to more than the limit. |
| `RunOutput.SummaryReads` | packages/cli/src/runOutput.ts:629-647 | The header is told the number of all failure lines, and the last line gives the number of those left out, each counted in the ranked lines; there is none if none was. |
| `RunOutput.Select` | packages/cli/src/runOutput.ts:575-593 | The chosen lines are within the budget, every line left out was blocked by one of its tier or better that did not fit, and the count of failure lines left out is exact. |
| `RunOutput.Fill` | packages/cli/src/runOutput.ts:577-592 | The fill loop's running sum, cutoff tier and count are right after every line. |
| `RunOutput.Trim` | packages/cli/src/runOutput.ts:647-660 | Dropping the least important line again and again ends within the limit or with nothing, and keeps what selection promised. |
| `RunOutput.DropOne` | packages/cli/src/runOutput.ts:648-658 | One drop makes the selection shorter, updates the count of omitted failures and renders what remains. |
| `RunOutput.LeastImportant` | packages/cli/src/runOutput.ts:649-655 | Finds the line with the highest tier, the latest of these. |
| `RunOutput.TrimKeeps` | packages/cli/src/runOutput.ts:648-659 | Each drop keeps: nothing better left out, an exact footer count, and that with the dropped line the summary was too long. |
| `RunOutput.Render` | packages/cli/src/runOutput.ts:599-609 | Lines in source order with `…` between two of them exactly where `contentBefore` grows. |
| `RunOutput.BodyMarksGaps` | packages/cli/src/runOutput.ts:599-609 | In the body the kept lines stand in order, with exactly one mark before a line if a line that is not blank was left out there, and else directly one after another. |
| `RunOutput.ContentBeforeGrows` | packages/cli/src/runOutput.ts:599-609 | That is, exactly when a line that is not blank was left out between them. |
| `RunOutput.ApplyFailureSafetyNet` | packages/cli/src/runOutput.ts:516-547 | The tier of every line in full: under a failure line that opens a window, each of the first 12 details, and each frame but those after the third, gets the detail tier if it is better; elsewhere a failure line the header tier and a count line tier 3; blank lines, and lines a recognised runner ranked, stay. So no tier worsens, and a dropped failure line is rescued. |
| `TscBlocks.CollapseRepeatedTscBlocks` | packages/cli/src/runOutput.ts:405-465 | Every line becomes what the specification says of it, in order; fewer than two blocks change nothing. |
| `TscBlocks.FindBlocks` | packages/cli/src/runOutput.ts:406-418 | The blocks are disjoint, in order, maximal, without trailing blank lines, and start at exactly the header lines. |
| `TscBlocks.OnlyRepeatsGo` | packages/cli/src/runOutput.ts:438-464 | Lines outside blocks stay as they are; a line vanishes exactly when it is in a block whose key an earlier block has. |
| `TscBlocks.FirstIsShown` | packages/cli/src/runOutput.ts:438-464 | The first block of a key is shown whole: as it is without repeats; else its first line tells how many there are and, with several sites, at how many, and its last line is followed by the rows of sites. |
| `TscBlocks.KeysAgreeIff` | packages/cli/src/runOutput.ts:420-422 | Two blocks have one key exactly when their messages, or their first lines where no location is found, and their details are the same. |
| `TscBlocks.CountsAccountForAllBlocks` | packages/cli/src/runOutput.ts:423-445 | The counts of the blocks shown, 1 where none is shown, add up to the number of blocks. |
| `TscBlocks.SitesAreDistinctAndComplete` | packages/cli/src/runOutput.ts:428-432 | The sites of a key are exactly the locations its blocks give, none twice. |
| `TscBlocks.RowsListEachOnce` | packages/cli/src/runOutput.ts:447-453 | The rows list each site exactly once, in order, wherever they are broken. |
| `TscBlocks.PlanEdits` | packages/cli/src/runOutput.ts:434-457 | The recorded drops, rewrites and appended rows yield, for every line, what the specification says. |
| `TscBlocks.CountKeys` | packages/cli/src/runOutput.ts:423-427 | The map holds each key's number of blocks. |
| `TscBlocks.CollectSites` | packages/cli/src/runOutput.ts:428-432 | The map holds each key's sites in order of first occurrence. |
| `ArgvEscape.JoinedSplits` | packages/cli/src/spawnCompat.ts:86-128 | Splitting the space-joined tokens of any list of arguments by the Microsoft rules gives back exactly those arguments. |
| `ArgvEscape.EscapeArgvToken` | packages/cli/src/spawnCompat.ts:86-104 | The token reads as its value wherever an argument may end; without quotes it differs only by doubled trailing backslashes and the two quotes. |
| `ArgvEscape.BuildBatchCommandLine` | packages/cli/src/spawnCompat.ts:125-128 | Inside the outer quotes the line splits into command and arguments; read with the program-name rule it does so exactly for a plain command. |
| `ArgvEscape.ProgramNameRoundTripsIff` | packages/cli/src/spawnCompat.ts:125-128 | As a program name, which knows no escapes, the first token reads back if and only if it has no quote and no trailing backslash. |
| `ArgvEscape.QuoteReadsAs` | packages/cli/src/spawnCompat.ts:94-98 | 2n + 1 backslashes and a quote read as n backslashes and a quote. |
| `ArgvEscape.OtherReadsAs` | packages/cli/src/spawnCompat.ts:99-100 | Backslashes before any other character read as themselves. |
| `ArgvEscape.ClosingReads` | packages/cli/src/spawnCompat.ts:102-103 | Doubled backslashes before the closing quote read as themselves and end the argument. |
| `McpHandshake.OkIff` | packages/cli/src/mcpHandshake.ts:185-253 | The handshake reports success if and only if a usable tools/list reply comes after a usable initialize reply whose follow-up could be written, and no error reply, exit, timeout or stream error came before it. |
| `McpHandshake.ChunkingDoesNotMatter` | packages/cli/src/mcpHandshake.ts:230-239 | Two runs whose decoded stdout differs only in how it was cut end alike, results and outcome. |
| `McpHandshake.ByteChunkingDoesNotMatter` | packages/cli/src/mcpHandshake.ts:230-239 | The same of bytes, each chunk decoded on its own, as long as no cut falls inside a character. |
| `McpHandshake.CutCharacterCanMatter` | packages/cli/src/mcpHandshake.ts:230-239 | The condition on the cuts is needed: bytes that decode otherwise in two chunks than in one can change which failure the handshake reports. |
| `McpHandshake.SettlesOnce` | packages/cli/src/mcpHandshake.ts:125-146 | Whatever happens after it has settled, the outcome stands. |
| `McpHandshake.FailuresAreNamed` | packages/cli/src/mcpHandshake.ts:169-263 | After any run that has not settled, timeout, exit, stream and process errors are reported as such, the first three with the stage: the second stage exactly if a usable initialize reply has come, the last line of a closing child included. |
| `McpHandshake.RepliesDecide` | packages/cli/src/mcpHandshake.ts:185-228 | What one line does before anything settled: an error reply fails in the stage it answers, the first usable initialize reply moves on or fails on the write, a usable tools/list reply behind it succeeds, and every other line changes nothing. |
| `McpHandshake.DrainInTwo` | packages/cli/src/mcpHandshake.ts:230-239 | Draining some text, then what it left with more, is draining all of it at once. |
| `McpHandshake.RunMeets` | packages/cli/src/mcpHandshake.ts:230-253 | A run of events is its complete lines and other events met one after another, the last unterminated line at the close. |
| `McpHandshake.Handshake.OnLine` | packages/cli/src/mcpHandshake.ts:185-228 | One line changes the state as specified: error replies, duplicates, replies out of order and failed writes each in their branch. |
| `McpHandshake.Handshake.OnData` | packages/cli/src/mcpHandshake.ts:230-239 | The loop over the buffer hands on every complete line once and keeps the rest. |
| `McpHandshake.Handshake.OnClose` | packages/cli/src/mcpHandshake.ts:244-253 | The unterminated last line is handled before the exit is. |
| `McpHandshake.Handshake.OnTimeout` | packages/cli/src/mcpHandshake.ts:169-175 | Settles as a failure in the stage reached, if nothing settled before. |
| `McpHandshake.Handshake.OnProcessError` | packages/cli/src/mcpHandshake.ts:177-179 | So does an error of the process itself. |
| `McpHandshake.Handshake.OnStdinError` | packages/cli/src/mcpHandshake.ts:257-263 | And an asynchronous error on its standard input, in the stage reached. |
| `HookSetup.SetupsExcludeEachOther` | packages/cli/src/copilotSessionHooks.ts:59-157 | On every run of installs, removals, failures, crashes and edits: no two setups hold the lock, and a config implies its runner. |
| `HookSetup.ForeignFilesArePreserved` | packages/cli/src/copilotSessionHooks.ts:74-117 | On every run, only a user's edit changes or removes a config or runner whose digest the ownership record read under the lock does not list. |
| `HookSetup.RunKeepsInvariant` | packages/cli/src/copilotSessionHooks.ts:59-157 | Every run keeps what a setup holding the lock relies on: the lock is there, the files it found present or absent still are, whatever edits do to their contents, and what it has put in place or taken away so far. |
| `HookSetup.StoppedIsOwnedIff` | packages/cli/src/copilotSessionHooks.ts:104-157 | On every run whose edits come between setups, wherever a setup past its check crashes or fails, in a first install, a refresh or a removal: setup can still take the files for its own if and only if it did not stop after publishing a runner that no record or the old record does not list, or after the new record and before replacing a config with another digest. |
| `HookSetup.StoppedBeforeActing` | packages/cli/src/copilotSessionHooks.ts:104-157 | A setup that stops before its first publication or deletion leaves the files as they were. |
| `HookSetup.CrashStrands` | packages/cli/src/copilotSessionHooks.ts:119-157 | Each of those stops is reached: from any owned files and a free lock there is a run that ends in it and strands the files. |
| `HookSetup.EveryStopIsReached` | packages/cli/src/copilotSessionHooks.ts:119-157 | From any owned files and a free lock, a setup comes to each of its stops, having seen these files. |
| `HookSetup.StepKeepsInvariant` | packages/cli/src/copilotSessionHooks.ts:59-157 | Every step of the lock, the snapshots, the publications and deletions keeps that. |
| `HookSetup.CrashStrandsRunner` | packages/cli/src/copilotSessionHooks.ts:119-137 | An instance from nothing: a first install that crashes between runner and record leaves a runner that no setup takes for its own. |
| `HookSetup.StrandedStays` | packages/cli/src/copilotSessionHooks.ts:104-117 | Until a user edits them, no later setup ever takes files that are not owned back, replaces or removes them, with a record or without. |
| `HookSetup.UnrecordedStays` | packages/cli/src/copilotSessionHooks.ts:104-117 | And for a runner without a record, not even an edit gives it back. |
| `HookSetup.InterruptedIsStranded` | packages/cli/src/copilotSessionHooks.ts:104-117 | A stop of that kind, by crash or failure, leaves such files. |
| `HookSetup.OwnedUntilEdited` | packages/cli/src/copilotSessionHooks.ts:104-117 | What an install left can be refreshed and removed exactly as long as no digest changes. |
| `HookSetup.OwnedIff` | packages/cli/src/copilotSessionHooks.ts:104-117 | Setup takes the files for its own exactly when there are none of them, or a record that is not empty and can be read lists the digests of those that are there. |
| `HookSetup.Workspace.Install` | packages/cli/src/copilotSessionHooks.ts:119-137 | Undisturbed: installs all three files exactly when no lock is in the way and nothing there is foreign; otherwise touches nothing. |
| `HookSetup.Workspace.Remove` | packages/cli/src/copilotSessionHooks.ts:140-157 | Undisturbed: removes all three exactly when there is a record, no lock, and neither file was edited; otherwise touches nothing. |
| `HookSetup.Workspace.PublishFile` | packages/cli/src/copilotSessionHooks.ts:74-94 | A file that is as it was seen is replaced by a new one; one that already has the body stays the same file. |
| `Jsonc.PassesKeepTokens` | packages/agents-md/src/copilotGuide.ts:81-149 | For any token sequence written with blanks, comments and trailing commas, the two passes return the same tokens without trailing commas, every string literal character for character. |
| `Jsonc.StripsComments` | packages/agents-md/src/copilotGuide.ts:100-126 | The first pass turns every comment into a blank and touches nothing else, in front of any further text. |
| `Jsonc.StripsTrailingCommas` | packages/agents-md/src/copilotGuide.ts:128-149 | The second deletes exactly the commas with nothing but blanks before a closer. |
| `Jsonc.StripJsonc` | packages/agents-md/src/copilotGuide.ts:81-84 | So does `parseJsonc` before its parser, behind an optional byte-order mark, for every way of writing such a document. |
| `Jsonc.WithoutComments` | packages/agents-md/src/copilotGuide.ts:100-126 | The copying loop with its run start gives what the first pass is defined to give, on every text. |
| `Jsonc.WithoutTrailingCommas` | packages/agents-md/src/copilotGuide.ts:128-149 | The same of the second. |
| `Jsonc.SkipString` | packages/agents-md/src/copilotGuide.ts:86-98 | The loop finds the end of a literal past its escapes, or the end of the text. |
| `ManagedBlock.RewriteSettles` | packages/agents-md/src/inject.ts:112-287 | For every text a pass does not refuse: with a single end mark before a single start mark and no guidance by hand, it appends a second block and every later pass refuses the text; with any other, it settles the text if and only if what it leaves has no carriage return before a line feed and no byte-order mark in front, and the block was not appended behind frontmatter of the user's own that is not in order. |
| `ManagedBlock.RefusedIff` | packages/agents-md/src/inject.ts:122-146 | For all texts: a pass refuses exactly those whose counts of start and end marks differ or exceed one, or whose block has no version line, and leaves them unchanged. |
| `ManagedBlock.DriftModes` | packages/agents-md/src/inject.ts:179-261 | For every text with a block that is not refused: diff-warn leaves the normalised text as a no-op and fail-build the same text as a failure, unless version, hash and front are current; then both are a no-op and only a missing final line feed is added. In every mode a manual edit is a block of this version under another hash line that is no other rendering. |
| `ManagedBlock.WithoutBlock` | packages/agents-md/src/inject.ts:122-177 | In all three modes alike: a text is refused as it is when its marks are not one of each or its block has no version line, one with guidance by hand and no block is left alone, and any other without a block gets one appended. |
| `ManagedBlock.EndBeforeStartIsAppended` | packages/agents-md/src/inject.ts:122-177 | Unordered marks are not always refused: on the end mark followed by the start mark a pass appends a block, and leaves two start marks that every later pass refuses. |
| `ManagedBlock.CrossedPass` | packages/agents-md/src/inject.ts:146-177 | The same of every text with a single end mark before a single start mark, unless it gives guidance by hand, which is left alone. |
| `ManagedBlock.PassesToSettle` | packages/agents-md/src/inject.ts:112-287 | How many more passes a text takes that the first did not refuse: exactly one for each carriage return in the longest run before a line feed, or for each byte-order mark in front, whichever are more; counted from the first pass, or from the second where the first left frontmatter out of order; none behind crossed marks, which are refused from then on. |
| `ManagedBlock.DepthAfterPass` | packages/agents-md/src/inject.ts:152-287 | That number from the text before the pass: of the user's text without trailing blanks for an appended block, of the text itself where it is kept, of the parts kept around a replaced block. |
| `ManagedBlock.AppendSettlesInOne` | packages/agents-md/src/inject.ts:152-177 | For a text without a block: one pass is enough if and only if the text without its trailing blanks, with the front put before it, has no carriage return before a line feed and no byte-order mark, and the front is in order. |
| `ManagedBlock.BlockSettlesInOne` | packages/agents-md/src/inject.ts:179-287 | For a text with a block: one pass is enough if and only if the text kept, or the parts kept around a replaced block, have no carriage return before a line feed and no byte-order mark in front. |
| `ManagedBlock.LastingSettles` | packages/agents-md/src/inject.ts:216-226 | Over a text whose block is current, or that gives guidance by hand, a pass only normalises: it settles after exactly as many passes as it is deep. |
| `ManagedBlock.CurrentStays` | packages/agents-md/src/inject.ts:216-226 | A current text is returned as it is, as a no-op. |
| `ManagedBlock.ReplaceKeepsOutside` | packages/agents-md/src/inject.ts:269-286 | Replacing keeps the text before and after the block character for character, but for outdated frontmatter of our own and one line break. |
| `ManagedBlock.AroundReads` | packages/agents-md/src/inject.ts:269-286 | In full: a front that ends with our frontmatter, or has its own, stays; outdated frontmatter of ours gives way to ours; else ours is put behind it. Behind the block a line feed is added where none follows, and one at the end. |
| `ManagedBlock.FrontReads` | packages/agents-md/src/inject.ts:187-216 | When a front is exact, compatible or outdated: it ends with our frontmatter; it opens and closes frontmatter; nothing but blanks follows that, it is marked as ours and not exact. |
| `ManagedBlock.AppendKeepsText` | packages/agents-md/src/inject.ts:152-177 | Appending keeps the user's text up to trailing blanks, with the block after it and frontmatter at the top. |
| `ManagedBlock.RemoveUndoesAppend` | packages/agents-md/src/inject.ts:293-303 | Removing the block that was appended gives back the user's text up to its trailing blanks and one more normalisation of line ends, so exactly that text if and only if no carriage return is left in it before a line feed; a guide's frontmatter stays at the top. |
| `ManagedBlock.RemoveKeepsOutside` | packages/agents-md/src/inject.ts:293-303 | Removing a block from any text keeps what is before and after it but for the blanks around it and at the end, with one empty line between the two and a final line feed. |
| `ManagedBlock.CarriageReturnsTakeOneMorePass` | packages/agents-md/src/inject.ts:112-177 | An instance: a text with two carriage returns before a line feed is not settled by the append. |
| `ManagedBlock.OneBlock` | packages/agents-md/src/sentinel.ts:90-106 | One marked block between texts without marks is well formed, and is exactly what is found. |
| `ManagedBlock.EverySight` | packages/agents-md/src/sentinel.ts:90-106 | Marks that are not refused stand in one of three ways: none, one pair in order, one pair with the end before the start. |

## Left out

- PublishProtocol.CrashSafety: one workspace, one process at a time; the `noCache`, `commit` and ignore-set options are not steps of the runs. Calls follow one another: two builds of one workspace that write at once are covered for the sharded cache only.
- MemoProtocol.ShortcutIsFresh: the stat fingerprint is taken as the map of stats itself, not as its hash. Which entries a scan samples, how far its time goes and whether a scope has recorded a clean one are parameters of a hit.
- Merkle.BuildDirectoryDigests: absolute paths, whose leading empty name is spelled like the top-level directory, are outside; paths are lists of names, and the sort among directories of one depth is free.
- GraphBuilder.EstimateIndexedGraphMinBytes: assumes at most 2^53 - 1 definitions in all, as many as a counter can count.
- ShardedCache.PieceNameDeterminesContent: the piece key is taken as collision-free although it is a truncated hash; the bucket of a path is any function into the 64 buckets, not FNV-1a.
- ShardedDirectory.CacheDirectory.LoadShardedManifest: gzip, JSON, temporary files and the size limit and shape check of the head are not modelled; neither are pieces that something other than TokenLighten wrote.
- RunOutput.CompressRunOutput: the per-runner rankers, ANSI stripping and the text of the two header lines are parameters; byte length is any function of text, tiers are in tenths.
- PageRank.RunPersonalizedPageRank: over reals, so floating-point rounding is not modelled.
- PageRank.BuildSymbolGraph: the name regex is any relation between a file's text and a name.
- PageRank.ScanSymbol: an edge weighs at least 1; by how much more where one file lists a name several times is not stated.
- Jsonc.PassesKeepTokens: unterminated comments and literals are stripped as the code does, but have no token theorem; the JSON parser is not modelled.
- McpHandshake.OkIff: the process, its kill, the text decoder and the JSON parser are parameters, and whether writing the follow-up fails is fixed for a run.
- HookSetup.StoppedIsOwnedIff: edits come between setups; after an edit under the lock, whether the files are owned is up to the edit.
- HookSetup.ForeignFilesArePreserved: a publish's last check and its rename are one step, users edit contents but do not create or delete the files, and the record meant is the one read under the lock: a refresh may replace a config that the record it has just written no longer lists.
- HookSetup.Workspace.Install: symbolic-link checks, file modes and the temporary-file dance are not modelled.
- Chunker.ExtractChunks: chunk ids, kinds and identifiers are not modelled.
- ArgvEscape.BuildBatchCommandLine: the second reading by `cmd.exe` of metacharacters beside embedded quotes is not modelled.
- `codeTokens` and the tree-sitter walks of the Go review are opaque; the diff starts from their tokens.
- Symbol extraction, enumeration and ignore matching are parameters of a build.
- `atomicJson.ts` appears as what it provides: a rename is one step, and a failed one leaves the target as it was.
- CLI dispatch, launchers, VS Code glue, guide templates, usage accounting, search, compaction and configuration merging would add only easy members.
