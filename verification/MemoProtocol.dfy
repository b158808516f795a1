/**
 * The in-process manifest memo: how invalidations, publications and the whole-match shortcut update
 * it, and what a load taking the shortcut may rely on while other loads, file changes and
 * invalidations interleave with it.
 */
module MemoProtocol {
  import opened Wrappers
  import opened SourceIndex
  import opened IncrementalBuild

  datatype Stat = Stat(sizeBytes: nat, mtimeMs: int)

  /** The stat fingerprint of a workspace (its hash taken as the map itself), or the invalidated one. */
  datatype Fingerprint = Invalidated | Of(stats: map<string, Stat>)

  datatype MemoEntry = MemoEntry(
    ignoreHash: string, fingerprint: Fingerprint, manifest: Manifest, persistedRootHash: Option<string>)

  const MANIFEST_MEMO_MAX_WORKSPACES := 2

  /** The whole manifest still matches: the shortcut may return it, after the consistency scan, without extracting anything. */
  predicate WholeMatch(memo: MemoEntry, ignoreHash: string, stats: map<string, Stat>, commit: Option<string>) {
    && memo.ignoreHash == ignoreHash
    && memo.fingerprint == Of(stats)
    && (commit == None || commit == Some(memo.manifest.builtFromCommit))
  }

  function InvalidatedEntry(memo: MemoEntry, relPaths: set<string>): MemoEntry {
    memo.(fingerprint := Invalidated, manifest := memo.manifest.(files := memo.manifest.files - relPaths))
  }

  // ----- the consistency scan

  /**
   * Re-reads the first `examined` files of the sample, as far as the scan's time goes, and drops those that
   * cannot be read or hold other bytes than the entry is of. `rootOf` is the root hash of the directory digests.
   */
  method RunConsistencyScan(engine: Engine, rootOf: Files -> string, manifest: Manifest, sample: seq<string>, examined: nat, texts: Texts)
    returns (healed: Manifest, dropped: set<string>)
    requires examined <= |sample| && forall path :: path in sample ==> path in manifest.files
    ensures forall path :: path in dropped <==>
      path in sample[..examined] && (path !in texts || engine.sha(texts[path]) != manifest.files[path].contentSha256)
    ensures healed.files == manifest.files - dropped
    ensures forall path :: path in sample[..examined] && path in healed.files ==>
      path in texts && engine.sha(texts[path]) == healed.files[path].contentSha256
    ensures if dropped == {} then healed == manifest
            else && healed.rootHash == rootOf(healed.files) && healed.generation == manifest.generation + 1
                 && healed == manifest.(files := healed.files, rootHash := healed.rootHash, generation := healed.generation)
  {
    dropped := {};
    for k := 0 to examined
      invariant forall path :: path in dropped <==>
        path in sample[..k] && (path !in texts || engine.sha(texts[path]) != manifest.files[path].contentSha256)
    {
      assert sample[..k + 1] == sample[..k] + [sample[k]];
      var path := sample[k];
      if path !in texts || engine.sha(texts[path]) != manifest.files[path].contentSha256 {
        dropped := dropped + {path};
      }
    }
    if dropped == {} {
      assert manifest.files - dropped == manifest.files;
      return manifest, dropped;
    }
    var files := manifest.files - dropped;
    healed := manifest.(files := files, rootHash := rootOf(files), generation := manifest.generation + 1);
  }

  // ----- the memo of all workspaces

  function Without(order: seq<string>, rootKey: string): seq<string> {
    if order == [] then []
    else Without(order[..|order| - 1], rootKey) + if order[|order| - 1] == rootKey then [] else [order[|order| - 1]]
  }

  lemma {:induction false} WithoutMembers(order: seq<string>, rootKey: string)
    requires forall i, j :: 0 <= i < j < |order| ==> order[i] != order[j]
    ensures forall key :: key in Without(order, rootKey) <==> key in order && key != rootKey
    ensures forall i, j :: 0 <= i < j < |Without(order, rootKey)| ==> Without(order, rootKey)[i] != Without(order, rootKey)[j]
    ensures |Without(order, rootKey)| == |order| - if rootKey in order then 1 else 0
  {
    if order != [] {
      var init, last := order[..|order| - 1], order[|order| - 1];
      WithoutMembers(init, rootKey);
      assert order == init + [last];
      assert last !in init;
    }
  }

  lemma DropFirstMembers(order: seq<string>)
    requires order != [] && forall i, j :: 0 <= i < j < |order| ==> order[i] != order[j]
    ensures forall key :: key in order[1..] <==> key in order && key != order[0]
    ensures forall i, j :: 0 <= i < j < |order[1..]| ==> order[1..][i] != order[1..][j]
  {
    assert order == [order[0]] + order[1..];
  }

  /** The module's two maps. `order` is the insertion order of `entries`, oldest first. */
  class ManifestMemo {
    var order: seq<string>
    var entries: map<string, MemoEntry>
    var epochs: map<string, nat>

    ghost predicate Valid()
      reads this
    {
      && (forall key :: key in entries <==> key in order)
      && forall i, j :: 0 <= i < j < |order| ==> order[i] != order[j]
    }

    constructor ()
      ensures Valid() && order == [] && entries == map[] && epochs == map[]
    {
      order, entries, epochs := [], map[], map[];
    }

    function Epoch(rootKey: string): nat
      reads this
    {
      if rootKey in epochs then epochs[rootKey] else 0
    }

    /** After a write: bump the epoch always, and poison the entry, if any, as the most recent one. */
    method Invalidate(rootKey: string, relPaths: set<string>)
      requires Valid()
      modifies this
      ensures Valid()
      ensures epochs == old(epochs)[rootKey := old(Epoch(rootKey)) + 1]
      ensures rootKey !in old(entries) ==> entries == old(entries) && order == old(order)
      ensures rootKey in old(entries) ==>
        && entries.Keys == old(entries).Keys
        && (forall key :: key in entries && key != rootKey ==> entries[key] == old(entries)[key])
        && entries[rootKey].fingerprint.Invalidated?
        && entries[rootKey].manifest.files == old(entries)[rootKey].manifest.files - relPaths
        && entries[rootKey].manifest == old(entries)[rootKey].manifest.(files := entries[rootKey].manifest.files)
        && entries[rootKey] == old(entries)[rootKey].(fingerprint := Invalidated, manifest := entries[rootKey].manifest)
        && order == Without(old(order), rootKey) + [rootKey]
    {
      epochs := epochs[rootKey := Epoch(rootKey) + 1];
      if rootKey !in entries {
        return;
      }
      WithoutMembers(order, rootKey);
      entries := entries[rootKey := InvalidatedEntry(entries[rootKey], relPaths)];
      order := Without(order, rootKey) + [rootKey];
    }

    /** The whole-match shortcut up to its consistency scan; a hit refreshes the entry's recency. */
    method TakeShortcut(rootKey: string, ignoreHash: string, stats: map<string, Stat>, commit: Option<string>)
      returns (hit: Option<Manifest>)
      requires Valid()
      modifies this
      ensures Valid() && entries == old(entries) && epochs == old(epochs)
      ensures hit.Some? <==>
        && rootKey in entries && entries[rootKey].ignoreHash == ignoreHash && entries[rootKey].fingerprint == Of(stats)
        && (commit.Some? ==> commit.value == entries[rootKey].manifest.builtFromCommit)
      ensures hit.Some? ==> hit.value == entries[rootKey].manifest
      ensures order == if hit.Some? then Without(old(order), rootKey) + [rootKey] else old(order)
    {
      if rootKey !in entries || !WholeMatch(entries[rootKey], ignoreHash, stats, commit) {
        return None;
      }
      WithoutMembers(order, rootKey);
      order := Without(order, rootKey) + [rootKey];
      return Some(entries[rootKey].manifest);
    }

    /** A finished build publishes unless an invalidation overtook it; the oldest other entry may make room. */
    method Publish(rootKey: string, entry: MemoEntry, epochAtStart: nat) returns (published: bool)
      requires Valid()
      modifies this
      ensures Valid() && epochs == old(epochs)
      ensures published <==> Epoch(rootKey) == epochAtStart
      ensures !published ==> entries == old(entries) && order == old(order)
      ensures published ==> rootKey in entries && entries[rootKey] == entry
      ensures published ==>
        var others := Without(old(order), rootKey);
        var kept := if |others| >= MANIFEST_MEMO_MAX_WORKSPACES then others[1..] else others;
        && order == kept + [rootKey]
        && forall key :: key in kept ==> key in old(entries) && entries[key] == old(entries)[key]
      ensures |old(order)| <= MANIFEST_MEMO_MAX_WORKSPACES ==> |order| <= MANIFEST_MEMO_MAX_WORKSPACES
    {
      published := Epoch(rootKey) == epochAtStart;
      if !published {
        return;
      }
      MakeRoom(rootKey);
      entries, order := entries[rootKey := entry], order + [rootKey];
    }

    /** Without this workspace's entry, and without the oldest one if the memo is full. */
    method MakeRoom(rootKey: string)
      requires Valid()
      modifies `entries, `order
      ensures Valid() && rootKey !in order
      ensures var others := Without(old(order), rootKey);
        order == if |others| >= MANIFEST_MEMO_MAX_WORKSPACES then others[1..] else others
      ensures forall key :: key in entries ==> key in old(entries) && entries[key] == old(entries)[key]
      ensures |old(order)| <= MANIFEST_MEMO_MAX_WORKSPACES ==> |order| < MANIFEST_MEMO_MAX_WORKSPACES
    {
      WithoutMembers(order, rootKey);
      order, entries := Without(order, rootKey), entries - {rootKey};
      if |order| >= MANIFEST_MEMO_MAX_WORKSPACES {
        DropFirstMembers(order);
        entries := entries - {order[0]};
        order := order[1..];
      }
    }

    /** A consistency-scan repair keeps the repaired manifest as a seed only, unless it was overtaken. */
    method Repair(rootKey: string, ignoreHash: string, healed: Manifest, epochAtStart: nat)
      requires Valid()
      modifies this
      ensures Valid() && epochs == old(epochs)
      ensures entries == if Epoch(rootKey) != epochAtStart then old(entries)
                         else old(entries)[rootKey := MemoEntry(ignoreHash, Invalidated, healed, None)]
    {
      if Epoch(rootKey) == epochAtStart {
        if rootKey !in entries {
          order := order + [rootKey];
        }
        entries := entries[rootKey := MemoEntry(ignoreHash, Invalidated, healed, None)];
      }
    }

    /**
     * What a hit returns: the found manifest, if the scan is off or this scope has recorded a clean one;
     * else what the scan leaves of it, which also becomes the seed if it could be written.
     */
    method ServeHit(engine: Engine, rootOf: Files -> string, rootKey: string, ignoreHash: string, found: Manifest,
                    skipped: bool, sample: seq<string>, examined: nat, texts: Texts, written: bool, epochAtStart: nat)
      returns (served: Manifest, ghost dropped: set<string>)
      requires Valid() && examined <= |sample| && forall path :: path in sample ==> path in found.files
      modifies this
      ensures Valid() && epochs == old(epochs)
      ensures forall path :: path in dropped <==>
        && !skipped && path in sample[..examined]
        && (path !in texts || engine.sha(texts[path]) != found.files[path].contentSha256)
      ensures served.files == found.files - dropped
      ensures !skipped ==> forall path :: path in sample[..examined] && path in served.files ==>
        path in texts && engine.sha(texts[path]) == served.files[path].contentSha256
      ensures if dropped == {} then served == found
              else && served.rootHash == rootOf(served.files) && served.generation == found.generation + 1
                   && served == found.(files := served.files, rootHash := served.rootHash, generation := served.generation)
      ensures entries == if dropped == {} || !written || Epoch(rootKey) != epochAtStart then old(entries)
                         else old(entries)[rootKey := MemoEntry(ignoreHash, Invalidated, served, None)]
    {
      if skipped {
        dropped := {};
        assert found.files - dropped == found.files;
        return found, dropped;
      }
      var stale: set<string>;
      served, stale := RunConsistencyScan(engine, rootOf, found, sample, examined, texts);
      dropped := stale;
      if stale != {} && written {
        Repair(rootKey, ignoreHash, served, epochAtStart);
      }
    }
  }

  // ----- loads, changes and invalidations interleaved on one workspace

  datatype DiskFile = DiskFile(bytes: string, stat: Stat)

  /**
   * A load in flight. `clean` and `history` observe it: the paths it statted while no unreported
   * change of them was outstanding, and the bytes each statted path has held since.
   */
  datatype Load = Load(
    ignoreHash: string,
    epochAtStart: nat,
    stats: map<string, Stat>,
    clean: set<string>,
    history: map<string, set<string>>,
    seed: Option<Files>,
    entries: Files)

  /**
   * A load that found the whole manifest in the memo and is scanning it. `checked` observes what the scan
   * read of each path it got to, if anything.
   */
  datatype Scan = Scan(load: Load, found: Files, hitEpoch: nat, checked: map<string, Option<string>>, dropped: set<string>)

  /** What the load returns if the scan ends here. */
  function Served(c: Scan): Files {
    c.found - c.dropped
  }

  /**
   * `seen` are the stats every path has ever had. `pending` are the paths changed under a stat seen
   * before whose change no invalidation has reported yet. `builtAt` is the epoch the memo's build saw.
   */
  datatype State = State(
    disk: map<string, DiskFile>,
    seen: set<(string, Stat)>,
    pending: set<string>,
    epoch: nat,
    memo: Option<MemoEntry>,
    builtAt: nat,
    loads: map<nat, Load>,
    scans: map<nat, Scan>)

  datatype Step =
    | Change(path: string, file: Option<DiskFile>)
    | Invalidate(relPaths: set<string>)
    | Start(id: nat, ignoreHash: string)
    | StatOne(id: nat, path: string)
    | EndEnumeration(id: nat, commit: Option<string>, diskSeed: Files)
    | ReadOne(id: nat, path: string, language: string, readable: bool)
    | ScanOne(id: nat, path: string, readable: bool)
    | EndScan(id: nat, written: bool, healed: Manifest)
    | Publish(id: nat, manifest: Manifest)
    | Repair(epochAtStart: nat, ignoreHash: string, healed: Manifest)
    | Evict
    | Restart

  /** A load about to end its enumeration finds the whole manifest in the memo. */
  predicate TakesShortcut(s: State, id: nat, commit: Option<string>) {
    && id in s.loads && s.loads[id].seed.None?
    && s.memo.Some? && WholeMatch(s.memo.value, s.loads[id].ignoreHash, s.loads[id].stats, commit)
  }

  function Observe(l: Load, path: string, bytes: string): Load {
    if path in l.stats && path in l.history then l.(history := l.history[path := l.history[path] + {bytes}]) else l
  }

  function ChangeFile(s: State, path: string, file: Option<DiskFile>): State {
    match file
    case None => s.(disk := s.disk - {path})
    case Some(f) =>
      s.(disk := s.disk[path := f],
         seen := s.seen + {(path, f.stat)},
         pending := if (path, f.stat) in s.seen then s.pending + {path} else s.pending,
         loads := map id | id in s.loads :: Observe(s.loads[id], path, f.bytes),
         scans := map id | id in s.scans :: s.scans[id].(load := Observe(s.scans[id].load, path, f.bytes)))
  }

  function StatFile(s: State, l: Load, path: string): Load
    requires path in s.disk
  {
    l.(stats := l.stats[path := s.disk[path].stat],
       clean := if path in s.pending then l.clean - {path} else l.clean + {path},
       history := l.history[path := {s.disk[path].bytes}])
  }

  function ReadFile(engine: Engine, s: State, l: Load, path: string, language: string, readable: bool): Load
    requires l.seed.Some? && path in l.stats
  {
    var raw := if readable && path in s.disk then Some(s.disk[path].bytes) else None;
    var f := EnumeratedFile(path, language, l.stats[path].sizeBytes, l.stats[path].mtimeMs);
    l.(entries := l.entries[path := FileEntry(engine, Lookup(l.seed.value, path), f, raw)])
  }

  /** A file is re-read; the entry goes if nothing was read, or other bytes than it is of. */
  function ScanFile(engine: Engine, s: State, c: Scan, path: string, readable: bool): Scan
    requires path in c.found
  {
    var raw := if readable && path in s.disk then Some(s.disk[path].bytes) else None;
    var kept := raw.Some? && engine.sha(raw.value) == c.found[path].contentSha256;
    c.(checked := c.checked[path := raw], dropped := if kept then c.dropped else c.dropped + {path})
  }

  function SeedFor(s: State, l: Load, diskSeed: Files): Files {
    if s.memo.Some? && s.memo.value.ignoreHash == l.ignoreHash then s.memo.value.manifest.files else diskSeed
  }

  /** One atomic step; a step that is not enabled changes nothing. */
  function Apply(engine: Engine, s: State, step: Step): State {
    match step
    case Change(path, file) => ChangeFile(s, path, file)
    case Invalidate(relPaths) =>
      s.(pending := {}, epoch := s.epoch + 1,
         memo := if s.memo.Some? then Some(InvalidatedEntry(s.memo.value, relPaths)) else None)
    case Start(id, ignoreHash) =>
      if id in s.loads || id in s.scans then s
      else s.(loads := s.loads[id := Load(ignoreHash, s.epoch, map[], {}, map[], None, map[])])
    case StatOne(id, path) =>
      if id in s.loads && s.loads[id].seed.None? && path in s.disk
      then s.(loads := s.loads[id := StatFile(s, s.loads[id], path)])
      else s
    case EndEnumeration(id, commit, diskSeed) =>
      if TakesShortcut(s, id, commit)
      then s.(loads := s.loads - {id}, scans := s.scans[id := Scan(s.loads[id], s.memo.value.manifest.files, s.epoch, map[], {})])
      else if id in s.loads && s.loads[id].seed.None?
      then s.(loads := s.loads[id := s.loads[id].(seed := Some(SeedFor(s, s.loads[id], diskSeed)))])
      else s
    case ReadOne(id, path, language, readable) =>
      if id in s.loads && s.loads[id].seed.Some? && path in s.loads[id].stats && path !in s.loads[id].entries
      then s.(loads := s.loads[id := ReadFile(engine, s, s.loads[id], path, language, readable)])
      else s
    case ScanOne(id, path, readable) =>
      if id in s.scans && path in s.scans[id].found && s.scans[id].found[path].parseStatus != Failed && path !in s.scans[id].checked
      then s.(scans := s.scans[id := ScanFile(engine, s, s.scans[id], path, readable)])
      else s
    case EndScan(id, written, healed) =>
      if id !in s.scans then s
      else
        var c := s.scans[id];
        var entry := MemoEntry(c.load.ignoreHash, Invalidated, healed.(files := Served(c)), None);
        s.(scans := s.scans - {id},
           memo := if c.dropped != {} && written && c.load.epochAtStart == s.epoch then Some(entry) else s.memo)
    case Publish(id, manifest) =>
      if id in s.loads && s.loads[id].seed.Some? && s.loads[id].entries.Keys == s.loads[id].stats.Keys then
        var l := s.loads[id];
        var entry := MemoEntry(l.ignoreHash, Of(l.stats), manifest.(files := l.entries), None);
        if l.epochAtStart == s.epoch
        then s.(loads := s.loads - {id}, memo := Some(entry), builtAt := l.epochAtStart)
        else s.(loads := s.loads - {id})
      else s
    case Repair(epochAtStart, ignoreHash, healed) =>
      if epochAtStart == s.epoch then s.(memo := Some(MemoEntry(ignoreHash, Invalidated, healed, None))) else s
    case Evict => s.(memo := None)
    case Restart => s.(memo := None, loads := map[], scans := map[], epoch := 0, builtAt := 0, pending := {})
  }

  // ----- the invariant

  /** If the path still has stat `stat` and no unreported change, the entry is of the bytes on disk. */
  ghost predicate Current(engine: Engine, s: State, path: string, stat: Stat, e: IndexedFile) {
    e.parseStatus != Failed && path in s.disk && s.disk[path].stat == stat && path !in s.pending ==>
      e.contentSha256 == engine.sha(s.disk[path].bytes)
  }

  /** A load that got the same stat for the path has, since then, seen the bytes the entry is of. */
  ghost predicate Witnessed(engine: Engine, l: Load, path: string, stat: Stat, e: IndexedFile) {
    e.parseStatus != Failed && path in l.clean && path in l.stats && l.stats[path] == stat ==>
      path in l.history && exists bytes :: bytes in l.history[path] && e.contentSha256 == engine.sha(bytes)
  }

  /** What holds of entries collected under the stats `stats` in the current epoch. */
  ghost predicate Sound(engine: Engine, s: State, stats: map<string, Stat>, entries: Files) {
    forall path :: path in entries ==>
      && path in stats && (path, stats[path]) in s.seen
      && Current(engine, s, path, stats[path], entries[path])
      && forall id :: id in s.loads ==> Witnessed(engine, s.loads[id], path, stats[path], entries[path])
  }

  ghost predicate LoadInvariant(s: State, l: Load) {
    && l.epochAtStart <= s.epoch
    && l.history.Keys == l.stats.Keys
    && (l.seed.None? ==> l.entries == map[])
    && forall path :: path in l.stats ==>
         && (path, l.stats[path]) in s.seen
         && (path in s.disk ==> s.disk[path].bytes in l.history[path])
  }

  ghost predicate MemoInvariant(engine: Engine, s: State) {
    && (forall path :: path in s.disk ==> (path, s.disk[path].stat) in s.seen)
    && (forall id :: id in s.loads ==> LoadInvariant(s, s.loads[id]))
    && (forall id :: id in s.loads && s.loads[id].epochAtStart == s.epoch ==>
          Sound(engine, s, s.loads[id].stats, s.loads[id].entries))
    && (s.memo.Some? && s.memo.value.fingerprint != Invalidated ==>
          && s.builtAt == s.epoch
          && s.memo.value.manifest.files.Keys == s.memo.value.fingerprint.stats.Keys
          && Sound(engine, s, s.memo.value.fingerprint.stats, s.memo.value.manifest.files))
  }

  lemma ChangeKeepsSound(engine: Engine, s: State, path: string, file: Option<DiskFile>, stats: map<string, Stat>, entries: Files)
    requires Sound(engine, s, stats, entries)
    ensures Sound(engine, ChangeFile(s, path, file), stats, entries)
  {
    var s' := ChangeFile(s, path, file);
    forall p | p in entries
      ensures Current(engine, s', p, stats[p], entries[p])
      ensures forall id :: id in s'.loads ==> Witnessed(engine, s'.loads[id], p, stats[p], entries[p])
    {
      assert Current(engine, s, p, stats[p], entries[p]);
      forall id | id in s'.loads
        ensures Witnessed(engine, s'.loads[id], p, stats[p], entries[p])
      {
        assert Witnessed(engine, s.loads[id], p, stats[p], entries[p]);
        if bytes :| p in s.loads[id].history && bytes in s.loads[id].history[p] && entries[p].contentSha256 == engine.sha(bytes) {
          assert bytes in s'.loads[id].history[p];
        }
      }
    }
  }

  lemma ChangeKeepsLoad(s: State, path: string, file: Option<DiskFile>, id: nat)
    requires id in s.loads && LoadInvariant(s, s.loads[id])
    ensures LoadInvariant(ChangeFile(s, path, file), ChangeFile(s, path, file).loads[id])
  {
  }

  lemma ChangeKeepsInvariant(engine: Engine, s: State, path: string, file: Option<DiskFile>)
    requires MemoInvariant(engine, s)
    ensures MemoInvariant(engine, ChangeFile(s, path, file))
  {
    var s' := ChangeFile(s, path, file);
    forall id | id in s'.loads
      ensures LoadInvariant(s', s'.loads[id])
      ensures s'.loads[id].epochAtStart == s'.epoch ==> Sound(engine, s', s'.loads[id].stats, s'.loads[id].entries)
    {
      ChangeKeepsLoad(s, path, file, id);
      if s.loads[id].epochAtStart == s.epoch {
        ChangeKeepsSound(engine, s, path, file, s.loads[id].stats, s.loads[id].entries);
      }
    }
    if s.memo.Some? && s.memo.value.fingerprint != Invalidated {
      ChangeKeepsSound(engine, s, path, file, s.memo.value.fingerprint.stats, s.memo.value.manifest.files);
    }
  }

  /** A later stat of an unreported path finds the bytes that current entries under this stat are of. */
  lemma StatKeepsSound(engine: Engine, s: State, id: nat, path: string, stats: map<string, Stat>, entries: Files)
    requires id in s.loads && path in s.disk && Sound(engine, s, stats, entries)
    ensures Sound(engine, s.(loads := s.loads[id := StatFile(s, s.loads[id], path)]), stats, entries)
  {
    var l' := StatFile(s, s.loads[id], path);
    forall p | p in entries
      ensures Witnessed(engine, l', p, stats[p], entries[p])
    {
      assert Witnessed(engine, s.loads[id], p, stats[p], entries[p]);
      assert Current(engine, s, p, stats[p], entries[p]);
      if p == path {
        assert s.disk[path].bytes in l'.history[path];
      }
    }
    var s' := s.(loads := s.loads[id := l']);
    forall p | p in entries
      ensures Current(engine, s', p, stats[p], entries[p])
    {
      assert Current(engine, s, p, stats[p], entries[p]);
    }
  }

  lemma StatKeepsInvariant(engine: Engine, s: State, id: nat, path: string)
    requires MemoInvariant(engine, s) && id in s.loads && s.loads[id].seed.None? && path in s.disk
    ensures MemoInvariant(engine, s.(loads := s.loads[id := StatFile(s, s.loads[id], path)]))
  {
    var s' := s.(loads := s.loads[id := StatFile(s, s.loads[id], path)]);
    assert LoadInvariant(s, s.loads[id]);
    forall i | i in s'.loads
      ensures LoadInvariant(s', s'.loads[i])
      ensures s'.loads[i].epochAtStart == s'.epoch ==> Sound(engine, s', s'.loads[i].stats, s'.loads[i].entries)
    {
      assert LoadInvariant(s, s.loads[i]);
      if i != id && s.loads[i].epochAtStart == s.epoch {
        StatKeepsSound(engine, s, id, path, s.loads[i].stats, s.loads[i].entries);
      }
    }
    if s.memo.Some? && s.memo.value.fingerprint != Invalidated {
      StatKeepsSound(engine, s, id, path, s.memo.value.fingerprint.stats, s.memo.value.manifest.files);
    }
  }

  /** A read entry carries the hash of the bytes on disk; an unread one is marked failed. */
  lemma ReadEntry(engine: Engine, s: State, l: Load, path: string, language: string, readable: bool)
    requires l.seed.Some? && path in l.stats
    ensures var e := ReadFile(engine, s, l, path, language, readable).entries[path];
      e.parseStatus != Failed ==> path in s.disk && e.contentSha256 == engine.sha(s.disk[path].bytes)
  {
  }

  lemma ReadKeepsInvariant(engine: Engine, s: State, id: nat, path: string, language: string, readable: bool)
    requires MemoInvariant(engine, s) && id in s.loads && s.loads[id].seed.Some? && path in s.loads[id].stats
    ensures MemoInvariant(engine, s.(loads := s.loads[id := ReadFile(engine, s, s.loads[id], path, language, readable)]))
  {
    var l := s.loads[id];
    var l' := ReadFile(engine, s, l, path, language, readable);
    var s' := s.(loads := s.loads[id := l']);
    ReadEntry(engine, s, l, path, language, readable);
    assert LoadInvariant(s, l);
    forall i | i in s'.loads
      ensures LoadInvariant(s', s'.loads[i])
    {
      assert LoadInvariant(s, s.loads[i]);
    }
    forall i | i in s'.loads && s'.loads[i].epochAtStart == s'.epoch
      ensures Sound(engine, s', s'.loads[i].stats, s'.loads[i].entries)
    {
      LoadsUnchangedKeepSound(engine, s, id, l', s.loads[i].stats, s.loads[i].entries);
      if i == id {
        assert Sound(engine, s', l.stats, l.entries);
        forall j | j in s'.loads
          ensures Witnessed(engine, s'.loads[j], path, l.stats[path], l'.entries[path])
        {
          assert LoadInvariant(s, s.loads[j]);
        }
        assert Current(engine, s', path, l.stats[path], l'.entries[path]);
      }
    }
    if s.memo.Some? && s.memo.value.fingerprint != Invalidated {
      LoadsUnchangedKeepSound(engine, s, id, l', s.memo.value.fingerprint.stats, s.memo.value.manifest.files);
    }
  }

  /** Soundness of other entries does not look at a load's seed and entries. */
  lemma LoadsUnchangedKeepSound(engine: Engine, s: State, id: nat, l': Load, stats: map<string, Stat>, entries: Files)
    requires id in s.loads && Sound(engine, s, stats, entries)
    requires l'.stats == s.loads[id].stats && l'.clean == s.loads[id].clean && l'.history == s.loads[id].history
    ensures Sound(engine, s.(loads := s.loads[id := l']), stats, entries)
  {
    var s' := s.(loads := s.loads[id := l']);
    forall p | p in entries
      ensures Current(engine, s', p, stats[p], entries[p])
      ensures forall i :: i in s'.loads ==> Witnessed(engine, s'.loads[i], p, stats[p], entries[p])
    {
      assert Current(engine, s, p, stats[p], entries[p]);
      forall i | i in s'.loads
        ensures Witnessed(engine, s'.loads[i], p, stats[p], entries[p])
      {
        assert Witnessed(engine, s.loads[i], p, stats[p], entries[p]);
      }
    }
  }

  lemma SeedKeepsInvariant(engine: Engine, s: State, id: nat, seed: Files)
    requires MemoInvariant(engine, s) && id in s.loads && s.loads[id].seed.None?
    ensures MemoInvariant(engine, s.(loads := s.loads[id := s.loads[id].(seed := Some(seed))]))
  {
    var l' := s.loads[id].(seed := Some(seed));
    var s' := s.(loads := s.loads[id := l']);
    forall i | i in s'.loads
      ensures LoadInvariant(s', s'.loads[i])
      ensures s'.loads[i].epochAtStart == s'.epoch ==> Sound(engine, s', s'.loads[i].stats, s'.loads[i].entries)
    {
      assert LoadInvariant(s, s.loads[i]);
      if s.loads[i].epochAtStart == s.epoch {
        LoadsUnchangedKeepSound(engine, s, id, l', s.loads[i].stats, s.loads[i].entries);
      }
    }
    if s.memo.Some? && s.memo.value.fingerprint != Invalidated {
      LoadsUnchangedKeepSound(engine, s, id, l', s.memo.value.fingerprint.stats, s.memo.value.manifest.files);
    }
  }

  /** Steps that only end loads or replace the memo keep what the remaining entries satisfy. */
  lemma FewerLoadsKeepInvariant(engine: Engine, s: State, s': State)
    requires MemoInvariant(engine, s)
    requires s'.disk == s.disk && s'.seen == s.seen && s'.pending == s.pending && s'.epoch == s.epoch
    requires forall id :: id in s'.loads ==> id in s.loads && s'.loads[id] == s.loads[id]
    requires s'.memo.Some? && s'.memo.value.fingerprint != Invalidated ==>
      || (s'.memo == s.memo && s'.builtAt == s.builtAt)
      || exists id :: id in s.loads && s.loads[id].epochAtStart == s.epoch == s'.builtAt
           && s'.memo.value.fingerprint == Of(s.loads[id].stats) && s'.memo.value.manifest.files == s.loads[id].entries
           && s.loads[id].entries.Keys == s.loads[id].stats.Keys
    ensures MemoInvariant(engine, s')
  {
    forall id | id in s'.loads
      ensures LoadInvariant(s', s'.loads[id])
      ensures s'.loads[id].epochAtStart == s'.epoch ==> Sound(engine, s', s'.loads[id].stats, s'.loads[id].entries)
    {
      assert LoadInvariant(s, s.loads[id]);
      if s.loads[id].epochAtStart == s.epoch {
        FewerLoadsKeepSound(engine, s, s', s.loads[id].stats, s.loads[id].entries);
      }
    }
    if s'.memo.Some? && s'.memo.value.fingerprint != Invalidated {
      FewerLoadsKeepSound(engine, s, s', s'.memo.value.fingerprint.stats, s'.memo.value.manifest.files);
    }
  }

  lemma FewerLoadsKeepSound(engine: Engine, s: State, s': State, stats: map<string, Stat>, entries: Files)
    requires Sound(engine, s, stats, entries)
    requires s'.disk == s.disk && s'.seen == s.seen && s'.pending == s.pending
    requires forall id :: id in s'.loads ==> id in s.loads && s'.loads[id] == s.loads[id]
    ensures Sound(engine, s', stats, entries)
  {
    forall p | p in entries
      ensures Current(engine, s', p, stats[p], entries[p])
    {
      assert Current(engine, s, p, stats[p], entries[p]);
    }
  }

  lemma StartKeepsInvariant(engine: Engine, s: State, id: nat, ignoreHash: string)
    requires MemoInvariant(engine, s) && id !in s.loads && id !in s.scans
    ensures MemoInvariant(engine, Apply(engine, s, Start(id, ignoreHash)))
  {
    var s' := Apply(engine, s, Start(id, ignoreHash));
    forall i | i in s'.loads
      ensures LoadInvariant(s', s'.loads[i])
      ensures s'.loads[i].epochAtStart == s'.epoch ==> Sound(engine, s', s'.loads[i].stats, s'.loads[i].entries)
    {
      if i != id {
        assert LoadInvariant(s, s.loads[i]);
        if s.loads[i].epochAtStart == s.epoch {
          NewLoadKeepsSound(engine, s, id, ignoreHash, s.loads[i].stats, s.loads[i].entries);
        }
      }
    }
    if s.memo.Some? && s.memo.value.fingerprint != Invalidated {
      NewLoadKeepsSound(engine, s, id, ignoreHash, s.memo.value.fingerprint.stats, s.memo.value.manifest.files);
    }
  }

  lemma NewLoadKeepsSound(engine: Engine, s: State, id: nat, ignoreHash: string, stats: map<string, Stat>, entries: Files)
    requires Sound(engine, s, stats, entries) && id !in s.loads && id !in s.scans
    ensures Sound(engine, Apply(engine, s, Start(id, ignoreHash)), stats, entries)
  {
    var s' := Apply(engine, s, Start(id, ignoreHash));
    forall p | p in entries
      ensures Current(engine, s', p, stats[p], entries[p])
      ensures forall i :: i in s'.loads ==> Witnessed(engine, s'.loads[i], p, stats[p], entries[p])
    {
      assert Current(engine, s, p, stats[p], entries[p]);
      assert forall i :: i in s.loads ==> Witnessed(engine, s.loads[i], p, stats[p], entries[p]);
    }
  }

  lemma InvalidateKeepsInvariant(engine: Engine, s: State, relPaths: set<string>)
    requires MemoInvariant(engine, s)
    ensures MemoInvariant(engine, Apply(engine, s, Invalidate(relPaths)))
  {
    var s' := Apply(engine, s, Invalidate(relPaths));
    forall id | id in s'.loads
      ensures LoadInvariant(s', s'.loads[id]) && s'.loads[id].epochAtStart != s'.epoch
    {
      assert LoadInvariant(s, s.loads[id]);
    }
  }

  /** Every step keeps what loads and memo are tied by. */
  lemma StepKeepsMemo(engine: Engine, s: State, step: Step)
    requires MemoInvariant(engine, s)
    ensures MemoInvariant(engine, Apply(engine, s, step))
  {
    var s' := Apply(engine, s, step);
    match step
    case Change(path, file) => ChangeKeepsInvariant(engine, s, path, file);
    case Invalidate(relPaths) => InvalidateKeepsInvariant(engine, s, relPaths);
    case Start(id, ignoreHash) =>
      if id !in s.loads && id !in s.scans {
        StartKeepsInvariant(engine, s, id, ignoreHash);
      }
    case StatOne(id, path) =>
      if id in s.loads && s.loads[id].seed.None? && path in s.disk {
        StatKeepsInvariant(engine, s, id, path);
      }
    case EndEnumeration(id, commit, diskSeed) =>
      if TakesShortcut(s, id, commit) {
        FewerLoadsKeepInvariant(engine, s, s');
      } else if id in s.loads && s.loads[id].seed.None? {
        SeedKeepsInvariant(engine, s, id, SeedFor(s, s.loads[id], diskSeed));
      }
    case ReadOne(id, path, language, readable) =>
      if id in s.loads && s.loads[id].seed.Some? && path in s.loads[id].stats && path !in s.loads[id].entries {
        ReadKeepsInvariant(engine, s, id, path, language, readable);
      }
    case Publish(id, manifest) => PublishKeepsMemo(engine, s, id, manifest);
    case Restart =>
    case _ => ReplacingKeepsMemo(engine, s, step);
  }

  lemma PublishKeepsMemo(engine: Engine, s: State, id: nat, manifest: Manifest)
    requires MemoInvariant(engine, s)
    ensures MemoInvariant(engine, Apply(engine, s, Publish(id, manifest)))
  {
    FewerLoadsKeepInvariant(engine, s, Apply(engine, s, Publish(id, manifest)));
  }

  /** Steps that read or end a scan, or replace the memo by a seed or nothing. */
  lemma ReplacingKeepsMemo(engine: Engine, s: State, step: Step)
    requires MemoInvariant(engine, s) && (step.ScanOne? || step.EndScan? || step.Repair? || step.Evict?)
    ensures MemoInvariant(engine, Apply(engine, s, step))
  {
    FewerLoadsKeepInvariant(engine, s, Apply(engine, s, step));
  }

  // ----- scans of what the shortcut found

  /** The path has held, since the load statted it, the bytes the entry is of. */
  ghost predicate HeldSince(engine: Engine, l: Load, path: string, e: IndexedFile) {
    path in l.history && exists bytes :: bytes in l.history[path] && e.contentSha256 == engine.sha(bytes)
  }

  /** A checked entry is kept exactly when its bytes were read, and they were on disk while the load ran. */
  ghost predicate CheckedRight(engine: Engine, c: Scan, path: string) {
    path in c.found && path in c.checked ==>
      && (path !in c.dropped <==> c.checked[path].Some? && engine.sha(c.checked[path].value) == c.found[path].contentSha256)
      && (c.checked[path].Some? ==> path in c.load.history && c.checked[path].value in c.load.history[path])
  }

  ghost predicate ScanInvariant(engine: Engine, s: State, c: Scan) {
    && LoadInvariant(s, c.load) && c.hitEpoch <= s.epoch
    && c.found.Keys == c.load.stats.Keys && c.dropped <= c.checked.Keys
    && forall path :: path in c.found ==>
         && Witnessed(engine, c.load, path, c.load.stats[path], c.found[path])
         && (c.hitEpoch == s.epoch ==> Current(engine, s, path, c.load.stats[path], c.found[path]))
         && CheckedRight(engine, c, path)
  }

  ghost predicate Invariant(engine: Engine, s: State) {
    MemoInvariant(engine, s) && forall id :: id in s.scans ==> ScanInvariant(engine, s, s.scans[id])
  }

  lemma HitIsScanned(engine: Engine, s: State, id: nat, commit: Option<string>, c: Scan)
    requires MemoInvariant(engine, s) && TakesShortcut(s, id, commit)
    requires c == Scan(s.loads[id], s.memo.value.manifest.files, s.epoch, map[], {})
    ensures ScanInvariant(engine, s, c)
  {
    assert LoadInvariant(s, c.load);
    forall path | path in c.found
      ensures Witnessed(engine, c.load, path, c.load.stats[path], c.found[path])
      ensures Current(engine, s, path, c.load.stats[path], c.found[path])
    {
    }
  }

  lemma ChangeKeepsScan(engine: Engine, s: State, path: string, file: Option<DiskFile>, id: nat)
    requires id in s.scans && ScanInvariant(engine, s, s.scans[id])
    ensures ScanInvariant(engine, ChangeFile(s, path, file), ChangeFile(s, path, file).scans[id])
  {
    var s', c, c' := ChangeFile(s, path, file), s.scans[id], ChangeFile(s, path, file).scans[id];
    ChangeKeepsObserved(s, path, file, c.load, c'.load);
    forall p | p in c'.found
      ensures Witnessed(engine, c'.load, p, c'.load.stats[p], c'.found[p]) && CheckedRight(engine, c', p)
      ensures c'.hitEpoch == s'.epoch ==> Current(engine, s', p, c'.load.stats[p], c'.found[p])
    {
      assert CheckedRight(engine, c, p);
      LongerHistory(engine, c, c', p);
      if c.hitEpoch == s.epoch {
        ChangeKeepsCurrent(engine, s, path, file, p, c.load.stats[p], c.found[p]);
      }
    }
  }

  lemma ChangeKeepsObserved(s: State, path: string, file: Option<DiskFile>, l: Load, l': Load)
    requires LoadInvariant(s, l) && l' == if file.Some? then Observe(l, path, file.value.bytes) else l
    ensures LoadInvariant(ChangeFile(s, path, file), l') && l' == l.(history := l'.history)
    ensures l'.history.Keys == l.history.Keys && forall q :: q in l.history ==> l.history[q] <= l'.history[q]
  {
  }

  lemma ChangeKeepsCurrent(engine: Engine, s: State, path: string, file: Option<DiskFile>, p: string, stat: Stat, e: IndexedFile)
    requires Current(engine, s, p, stat, e) && (p, stat) in s.seen
    ensures Current(engine, ChangeFile(s, path, file), p, stat, e)
  {
  }

  /** More bytes observed change nothing about the entries. */
  lemma LongerHistory(engine: Engine, c: Scan, c': Scan, p: string)
    requires c' == c.(load := c.load.(history := c'.load.history)) && p in c.found && p in c.load.stats
    requires c'.load.history.Keys == c.load.history.Keys && forall q :: q in c.load.history ==> c.load.history[q] <= c'.load.history[q]
    requires Witnessed(engine, c.load, p, c.load.stats[p], c.found[p]) && CheckedRight(engine, c, p)
    ensures Witnessed(engine, c'.load, p, c'.load.stats[p], c'.found[p]) && CheckedRight(engine, c', p)
  {
    if bytes :| p in c.load.history && bytes in c.load.history[p] && c.found[p].contentSha256 == engine.sha(bytes) {
      assert bytes in c'.load.history[p];
    }
  }

  lemma ReadKeepsScan(engine: Engine, s: State, c: Scan, path: string, readable: bool)
    requires ScanInvariant(engine, s, c) && path in c.found && path !in c.checked
    ensures ScanInvariant(engine, s, ScanFile(engine, s, c, path, readable))
  {
    var c' := ScanFile(engine, s, c, path, readable);
    forall p | p in c'.found
      ensures CheckedRight(engine, c', p)
    {
      assert CheckedRight(engine, c, p);
    }
  }

  /** Scans go by the disk, the unreported changes and the epoch alone. */
  lemma ScanStays(engine: Engine, s: State, s': State, c: Scan)
    requires ScanInvariant(engine, s, c) && s'.disk == s.disk && s'.seen == s.seen
    requires s.epoch <= s'.epoch && (s'.epoch == s.epoch ==> s'.pending == s.pending)
    ensures ScanInvariant(engine, s', c)
  {
    forall path | path in c.found && c.hitEpoch == s'.epoch
      ensures Current(engine, s', path, c.load.stats[path], c.found[path])
    {
      assert Current(engine, s, path, c.load.stats[path], c.found[path]);
    }
  }

  lemma StepKeepsDisk(engine: Engine, s: State, step: Step)
    requires !step.Change? && !step.Restart?
    ensures var s' := Apply(engine, s, step);
      && s'.disk == s.disk && s'.seen == s.seen && s.epoch <= s'.epoch && (s'.epoch == s.epoch ==> s'.pending == s.pending)
  {
  }

  /** A scan is new, has read one more file, or is as it was. */
  lemma ScanAfter(engine: Engine, s: State, step: Step, id: nat)
    requires !step.Change? && id in Apply(engine, s, step).scans
    ensures !step.Restart?
    ensures var c := Apply(engine, s, step).scans[id];
      || (step.EndEnumeration? && TakesShortcut(s, id, step.commit)
          && c == Scan(s.loads[id], s.memo.value.manifest.files, s.epoch, map[], {}))
      || (step.ScanOne? && id in s.scans && step.path in s.scans[id].found && step.path !in s.scans[id].checked
          && c == ScanFile(engine, s, s.scans[id], step.path, step.readable))
      || (id in s.scans && c == s.scans[id])
  {
  }

  lemma StepKeepsScans(engine: Engine, s: State, step: Step, id: nat, c: Scan)
    requires Invariant(engine, s) && id in Apply(engine, s, step).scans && c == Apply(engine, s, step).scans[id]
    ensures ScanInvariant(engine, Apply(engine, s, step), c)
  {
    if step.Change? {
      ChangeKeepsScan(engine, s, step.path, step.file, id);
    } else {
      ScanAfter(engine, s, step, id);
      StepKeepsDisk(engine, s, step);
      if step.EndEnumeration? && TakesShortcut(s, id, step.commit)
         && c == Scan(s.loads[id], s.memo.value.manifest.files, s.epoch, map[], {}) {
        HitIsScanned(engine, s, id, step.commit, c);
      } else if step.ScanOne? && c != s.scans[id] {
        ReadKeepsScan(engine, s, s.scans[id], step.path, step.readable);
      }
      ScanStays(engine, s, Apply(engine, s, step), c);
    }
  }

  /** Every step keeps the invariant. */
  lemma StepKeepsInvariant(engine: Engine, s: State, step: Step)
    requires Invariant(engine, s)
    ensures Invariant(engine, Apply(engine, s, step))
  {
    StepKeepsMemo(engine, s, step);
    forall id | id in Apply(engine, s, step).scans
      ensures ScanInvariant(engine, Apply(engine, s, step), Apply(engine, s, step).scans[id])
    {
      StepKeepsScans(engine, s, step, id, Apply(engine, s, step).scans[id]);
    }
  }

  // ----- whole runs

  /** A process that has just started, on any workspace. */
  function Initial(disk: map<string, DiskFile>): State {
    State(disk, set path | path in disk :: (path, disk[path].stat), {}, 0, None, 0, map[], map[])
  }

  function Run(engine: Engine, s: State, steps: seq<Step>): State {
    if steps == [] then s else Apply(engine, Run(engine, s, steps[..|steps| - 1]), steps[|steps| - 1])
  }

  lemma {:induction false} RunKeepsInvariant(engine: Engine, disk: map<string, DiskFile>, steps: seq<Step>)
    ensures Invariant(engine, Run(engine, Initial(disk), steps))
  {
    if steps != [] {
      RunKeepsInvariant(engine, disk, steps[..|steps| - 1]);
      StepKeepsInvariant(engine, Run(engine, Initial(disk), steps[..|steps| - 1]), steps[|steps| - 1]);
    }
  }

  /**
   * On every interleaving, at every point of the scan of a load that took the shortcut: it returns an
   * entry for exactly the paths it enumerated and the scan did not drop. An entry the scan got to is kept
   * only with the hash of the bytes it read, whatever was reported; another non-failed one only with the
   * hash of bytes the path has held since the load statted it, unless an unreported change of the path
   * was outstanding then. If no invalidation has come since the hit, the path still has that stat and has
   * no unreported change, those are the bytes on disk now.
   */
  lemma ShortcutIsFresh(engine: Engine, disk: map<string, DiskFile>, steps: seq<Step>, id: nat, path: string)
    requires id in Run(engine, Initial(disk), steps).scans
    ensures var s := Run(engine, Initial(disk), steps);
      var c := s.scans[id];
      && Served(c).Keys == c.load.stats.Keys - c.dropped && c.dropped <= c.checked.Keys
      && (path in Served(c) && path in c.checked ==>
            && c.checked[path].Some? && Served(c)[path].contentSha256 == engine.sha(c.checked[path].value)
            && path in c.load.history && c.checked[path].value in c.load.history[path])
      && (path in Served(c) && Served(c)[path].parseStatus != Failed && path in c.load.clean ==>
            HeldSince(engine, c.load, path, Served(c)[path]))
      && (path in Served(c) && Served(c)[path].parseStatus != Failed && c.hitEpoch == s.epoch
            && path in s.disk && path !in s.pending && s.disk[path].stat == c.load.stats[path] ==>
            Served(c)[path].contentSha256 == engine.sha(s.disk[path].bytes))
  {
    RunKeepsInvariant(engine, disk, steps);
    var s := Run(engine, Initial(disk), steps);
    var c := s.scans[id];
    assert ScanInvariant(engine, s, c);
    if path in c.found {
      assert Witnessed(engine, c.load, path, c.load.stats[path], c.found[path]) && CheckedRight(engine, c, path);
      assert c.hitEpoch == s.epoch ==> Current(engine, s, path, c.load.stats[path], c.found[path]);
    }
  }

  /** On every interleaving, a memo that can match was built by a load that began after the last invalidation. */
  lemma MatchingMemoIsNewerThanInvalidation(engine: Engine, disk: map<string, DiskFile>, steps: seq<Step>)
    ensures var s := Run(engine, Initial(disk), steps);
      s.memo.Some? && s.memo.value.fingerprint != Invalidated ==> s.builtAt == s.epoch
  {
    RunKeepsInvariant(engine, disk, steps);
  }

  /** A load overtaken by an invalidation leaves the memo as it is. */
  lemma OvertakenNeverPublishes(engine: Engine, disk: map<string, DiskFile>, steps: seq<Step>, id: nat, manifest: Manifest)
    requires var s := Run(engine, Initial(disk), steps); id in s.loads && s.loads[id].epochAtStart != s.epoch
    ensures var s := Run(engine, Initial(disk), steps); Apply(engine, s, Publish(id, manifest)).memo == s.memo
    ensures var s := Run(engine, Initial(disk), steps); s.loads[id].epochAtStart < s.epoch
  {
    RunKeepsInvariant(engine, disk, steps);
    var s := Run(engine, Initial(disk), steps);
    assert LoadInvariant(s, s.loads[id]);
  }

  /**
   * The condition on unreported changes is needed where the scan does not get to: a change under an
   * unchanged stat that no invalidation reports is served stale by the next load's shortcut, if its scan
   * is off, out of time or skipped as already clean in its scope; had the scan read the file, it would
   * have dropped the entry.
   */
  lemma UnreportedSameStatChangeIsServedStale(engine: Engine, path: string, before: string, after: string, manifest: Manifest)
    returns (steps: seq<Step>, disk: map<string, DiskFile>)
    requires SoundEngine(engine) && before != after
    ensures var s := Run(engine, Initial(disk), steps);
      && 2 in s.scans && s.scans[2].checked == map[]
      && path in s.disk && s.disk[path] == DiskFile(after, Stat(1, 1)) && path in s.pending
      && path in Served(s.scans[2])
      && Served(s.scans[2])[path].parseStatus != Failed
      && Served(s.scans[2])[path].contentSha256 == engine.sha(before) != engine.sha(after)
      && path !in Served(Apply(engine, s, ScanOne(2, path, true)).scans[2])
  {
    disk := map[path := DiskFile(before, Stat(1, 1))];
    var build := [Start(1, ""), StatOne(1, path), EndEnumeration(1, None, map[]), ReadOne(1, path, "ts", true), Publish(1, manifest)];
    var again := [Change(path, Some(DiskFile(after, Stat(1, 1)))), Start(2, ""), StatOne(2, path)];
    var eight := build + again;
    steps := eight + [EndEnumeration(2, None, map[])];
    var s0 := Initial(disk);
    assert (path, disk[path].stat) in s0.seen;
    var s5 := BuiltMemo(engine, s0, path, manifest);
    assert s5 == Apply(engine, Apply(engine, Apply(engine, Apply(engine, Apply(engine, s0, build[0]), build[1]), build[2]), build[3]), build[4]);
    RunOfEight(engine, s0, eight);
    assert steps[..|steps| - 1] == eight;
    ServedStale(engine, s5, path, before, after, Run(engine, s0, eight));
  }

  lemma ServedStale(engine: Engine, s: State, path: string, before: string, after: string, s': State)
    requires SoundEngine(engine) && before != after
    requires path in s.disk && s.disk[path] == DiskFile(before, Stat(1, 1)) && (path, Stat(1, 1)) in s.seen
    requires s.pending == {} && s.loads == map[] && s.scans == map[] && s.memo.Some? && s.memo.value.ignoreHash == ""
    requires s.memo.value.fingerprint == Of(map[path := Stat(1, 1)]) && path in s.memo.value.manifest.files
    requires s.memo.value.manifest.files[path].parseStatus != Failed
    requires s.memo.value.manifest.files[path].contentSha256 == engine.sha(before)
    requires s' == Apply(engine, Apply(engine, Apply(engine, s,
      Change(path, Some(DiskFile(after, Stat(1, 1))))), Start(2, "")), StatOne(2, path))
    ensures var hit := Apply(engine, s', EndEnumeration(2, None, map[]));
      && 2 in hit.scans && hit.scans[2].checked == map[] && Served(hit.scans[2]) == s.memo.value.manifest.files
      && path in hit.disk && hit.disk[path] == DiskFile(after, Stat(1, 1)) && path in hit.pending
      && path !in Served(Apply(engine, hit, ScanOne(2, path, true)).scans[2])
  {
    var s6 := Apply(engine, s, Change(path, Some(DiskFile(after, Stat(1, 1)))));
    var s7 := Apply(engine, s6, Start(2, ""));
    assert s7.loads[2].stats == map[] && path in s7.disk;
    assert s'.loads[2].stats == map[path := Stat(1, 1)];
    assert TakesShortcut(s', 2, None);
  }

  /** The state after one undisturbed build of one file. */
  lemma BuiltMemo(engine: Engine, s: State, path: string, manifest: Manifest) returns (s': State)
    requires path in s.disk && s.loads == map[] && s.scans == map[] && s.memo.None? && s.pending == {}
    ensures s' == Apply(engine, Apply(engine, Apply(engine, Apply(engine, Apply(engine, s,
      Start(1, "")), StatOne(1, path)), EndEnumeration(1, None, map[])), ReadOne(1, path, "ts", true)), Publish(1, manifest))
    ensures s'.disk == s.disk && s'.seen == s.seen && s'.pending == {} && s'.loads == map[] && s'.scans == map[]
    ensures s'.memo.Some? && s'.memo.value.ignoreHash == "" && s'.memo.value.fingerprint == Of(map[path := s.disk[path].stat])
    ensures s'.memo.value.manifest.files.Keys == {path}
    ensures s'.memo.value.manifest.files[path].parseStatus != Failed
    ensures s'.memo.value.manifest.files[path].contentSha256 == engine.sha(s.disk[path].bytes)
  {
    var s1 := Apply(engine, s, Start(1, ""));
    var s2 := Apply(engine, s1, StatOne(1, path));
    var s3 := Apply(engine, s2, EndEnumeration(1, None, map[]));
    assert s3.loads[1].seed == Some(map[]) && s3.loads[1].stats == map[path := s.disk[path].stat];
    var s4 := Apply(engine, s3, ReadOne(1, path, "ts", true));
    assert s4.loads[1].entries.Keys == {path} && s4.loads[1].stats == map[path := s.disk[path].stat];
    s' := Apply(engine, s4, Publish(1, manifest));
  }

  lemma RunOfEight(engine: Engine, s: State, t: seq<Step>)
    requires |t| == 8
    ensures Run(engine, s, t) ==
      Apply(engine, Apply(engine, Apply(engine, Apply(engine, Apply(engine, Apply(engine, Apply(engine, Apply(engine, s,
        t[0]), t[1]), t[2]), t[3]), t[4]), t[5]), t[6]), t[7])
  {
    var states := StatesOf(engine, s, t);
    assert states[8] == Apply(engine, states[7], t[7]) && states[7] == Apply(engine, states[6], t[6]);
    assert states[6] == Apply(engine, states[5], t[5]) && states[5] == Apply(engine, states[4], t[4]);
    assert states[4] == Apply(engine, states[3], t[3]) && states[3] == Apply(engine, states[2], t[2]);
    assert states[2] == Apply(engine, states[1], t[1]) && states[1] == Apply(engine, states[0], t[0]);
  }

  /** The states a run goes through. */
  lemma {:induction false} StatesOf(engine: Engine, s: State, t: seq<Step>) returns (states: seq<State>)
    ensures |states| == |t| + 1 && states[0] == s && states[|t|] == Run(engine, s, t)
    ensures forall n :: 0 <= n < |t| ==> states[n + 1] == Apply(engine, states[n], t[n])
  {
    if t == [] {
      states := [s];
    } else {
      var before := StatesOf(engine, s, t[..|t| - 1]);
      states := before + [Run(engine, s, t)];
    }
  }
}
