/**
 * Publishing one build: manifest, journal, graph, journal removal, memo, scan repair. Each rename or
 * unlink is one atomic step of a run, a crash may come between any two, and calls follow one another.
 */
module PublishProtocol {
  import opened Wrappers
  import opened SourceIndex
  import opened IncrementalBuild
  import opened GraphBuilder
  import opened Sorting
  import Merkle

  // ----- artifacts

  datatype Journal = Absent | Pending(generation: nat, rootHash: string) | Corrupt

  datatype GraphFile = GraphFile(generation: nat, graph: TlGraph)

  /** `builtBy` is the engine version that wrote the graph; the file does not record it. */
  datatype Disk = Disk(
    single: Option<Manifest>, sharded: Option<Manifest>, journal: Journal, graph: Option<GraphFile>, builtBy: string)

  /** What a load finds: the single-file cache, else the sharded one. */
  function Loaded(d: Disk): Option<Manifest> {
    if d.single.Some? then d.single else d.sharded
  }

  datatype Memo = Memo(manifest: Manifest, persistedRootHash: Option<string>)

  datatype Phase = Writing | Removing(large: bool) | Journaling | Graphing | Clearing | Publishing | Scanning

  /**
   * A call after its per-file loop. `graph` is what assembling the manifest's graph gives; `attempted`
   * records that the call did not take the root-hash shortcut.
   */
  datatype Call = Call(
    phase: Phase, manifest: Manifest, graph: TlGraph, persistedRootHash: Option<string>, reparsed: bool, attempted: bool)

  datatype State = State(version: string, disk: Disk, memo: Option<Memo>, call: Option<Call>)

  /** The engine of each version, and the library's orders. All versions hash alike. */
  datatype World = World(engines: string -> Engine, sha: string -> string, orders: Orders)

  ghost predicate SoundWorld(w: World) {
    forall v :: SoundEngine(w.engines(v)) && w.engines(v).sha == w.sha
  }

  // ----- the graph of a manifest

  /** The order in which a manifest lists its paths, fixed by the set of paths. */
  ghost function PathOrder(paths: set<string>): (order: seq<string>)
    ensures forall p :: p in order <==> p in paths
    ensures forall i, j :: 0 <= i < j < |order| ==> order[i] != order[j]
  {
    if paths == {} then []
    else
      var p :| p in paths;
      PathOrder(paths - {p}) + [p]
  }

  ghost function Listing(files: Files): (listed: seq<IndexedFile>)
    ensures |listed| == |PathOrder(files.Keys)|
    ensures forall i :: 0 <= i < |listed| ==> listed[i] == files[PathOrder(files.Keys)[i]]
  {
    seq(|PathOrder(files.Keys)|, i requires 0 <= i < |PathOrder(files.Keys)| => files[PathOrder(files.Keys)[i]])
  }

  ghost function GraphOf(w: World, m: Manifest): TlGraph {
    BuildTlGraph(m.rootHash, Listing(m.files), w.orders)
  }

  /** A manifest some run of version `v` assembled. */
  ghost predicate MadeBy(w: World, v: string, m: Manifest) {
    && m.engineVersion == v
    && ProducedFiles(w.engines(v), m.files)
    && CleanPaths(m.files)
    && m.rootHash == RootHash(w.sha, m.files)
  }

  /** Within one version, what the graph reads of an entry is determined by its path and content hash. */
  lemma EqualHashesEqualView(engine: Engine, path: string, e: IndexedFile, e': IndexedFile)
    requires SoundEngine(engine) && Produced(engine, path, e) && Produced(engine, path, e')
    requires e.contentSha256 == e'.contentSha256
    ensures e.path == e'.path && e.symbols == e'.symbols && e.outgoingSymbolRefs == e'.outgoingSymbolRefs
  {
    assert forall raw :: ExtractedFrom(engine, e, raw) ==> e.contentSha256 == engine.sha(raw) != "";
    assert forall raw :: ExtractedFrom(engine, e', raw) ==> e'.contentSha256 == engine.sha(raw) != "";
    if !IsPlaceholder(e) {
      var raw :| ExtractedFrom(engine, e, raw);
      var raw' :| ExtractedFrom(engine, e', raw');
    }
  }

  /** The root hash determines the graph, within one version. */
  lemma RootHashDeterminesGraph(w: World, v: string, m: Manifest, m': Manifest)
    requires SoundWorld(w) && MadeBy(w, v, m) && MadeBy(w, v, m') && m.rootHash == m'.rootHash
    ensures GraphOf(w, m) == GraphOf(w, m')
  {
    RootHashIdentifiesContents(w.sha, m.files, m'.files);
    forall i | 0 <= i < |Listing(m.files)|
      ensures Listing(m.files)[i].path == Listing(m'.files)[i].path
      ensures Listing(m.files)[i].symbols == Listing(m'.files)[i].symbols
      ensures Listing(m.files)[i].outgoingSymbolRefs == Listing(m'.files)[i].outgoingSymbolRefs
    {
      var path := PathOrder(m.files.Keys)[i];
      assert path in m.files.Keys;
      EqualHashesEqualView(w.engines(v), path, m.files[path], m'.files[path]);
    }
    SameGraph(m.rootHash, Listing(m.files), Listing(m'.files), w.orders);
  }

  // ----- steps

  /** What becomes of the replaced cache form in a repair. */
  datatype Removal = Removed | NotRemoved | CrashedBefore

  datatype Step =
    | Begin(files: seq<EnumeratedFile>, texts: Texts, commit: string)
    | WriteManifest(large: bool, ok: bool)
    | RemoveOther(ok: bool)
    | WriteJournal(ok: bool)
    | WriteGraph(overCap: bool, ok: bool)
    | ClearJournal(ok: bool)
    | PublishMemo(overtaken: bool)
    | ScanRepair(dropped: set<string>, large: bool, ok: bool, overtaken: bool, removal: Removal)
    | ShortcutRepair(dropped: set<string>, large: bool, ok: bool, overtaken: bool, removal: Removal)
    | Invalidate(relPaths: set<string>)
    | DamageJournal
    | Crash
    | Upgrade(version: string)

  /** The seed of a call: the memo, else the disk cache if this version wrote it. */
  function Seed(s: State): Option<Manifest> {
    if s.memo.Some? then Some(s.memo.value.manifest)
    else if Loaded(s.disk).Some? && Loaded(s.disk).value.engineVersion == s.version then Loaded(s.disk)
    else None
  }

  function SeedFiles(s: State): Files {
    if Seed(s).Some? then Seed(s).value.files else map[]
  }

  function Belief(s: State): Option<string> {
    if s.memo.Some? then s.memo.value.persistedRootHash
    else if Seed(s).Some? then Some(Seed(s).value.rootHash)
    else None
  }

  ghost function Assembled(w: World, s: State, files: seq<EnumeratedFile>, texts: Texts, commit: string): Manifest {
    var seed := Seed(s);
    var entries := Entries(w.engines(s.version), SeedFiles(s), files, texts);
    var rootHash := RootHash(w.sha, entries);
    var prior := if seed.Some? then seed.value.generation else 0;
    var generation := if seed.Some? && seed.value.rootHash == rootHash then prior else prior + 1;
    Manifest(s.version, "", "", commit, rootHash, generation, entries)
  }

  /** Every file that was read reuses its seed entry. */
  ghost predicate AllReusable(engine: Engine, seed: Files, files: seq<EnumeratedFile>, texts: Texts) {
    forall f :: f in files && f.path in texts ==> Reusable(engine, seed, texts, f.path)
  }

  ghost function BegunCall(w: World, s: State, files: seq<EnumeratedFile>, texts: Texts, commit: string): Call {
    var m := Assembled(w, s, files, texts, commit);
    Call(Writing, m, GraphOf(w, m), Belief(s), !AllReusable(w.engines(s.version), SeedFiles(s), files, texts), false)
  }

  predicate DiskCacheCurrent(c: Call) {
    c.persistedRootHash == Some(c.manifest.rootHash) && !c.reparsed
  }

  ghost function Healed(w: World, m: Manifest, dropped: set<string>): Manifest {
    var files := m.files - dropped;
    m.(files := files, rootHash := RootHash(w.sha, files), generation := m.generation + 1)
  }

  /** A cache write before the removal of the other form. */
  function WrittenBeside(d: Disk, m: Manifest, large: bool): Disk {
    if large then d.(sharded := Some(m)) else d.(single := Some(m))
  }

  /** A whole cache write with both of its steps: the new form, then the removal of the other one. */
  function Written(d: Disk, m: Manifest, large: bool): Disk {
    if large then d.(sharded := Some(m), single := None) else d.(single := Some(m), sharded := None)
  }

  ghost function Repair(w: World, s: State, m: Manifest, dropped: set<string>, large: bool, ok: bool, overtaken: bool,
                        removal: Removal): State {
    if dropped * m.files.Keys == {} || !ok then s
    else
      var healed := Healed(w, m, dropped);
      match removal
      case CrashedBefore => s.(disk := WrittenBeside(s.disk, healed, large), memo := None, call := None)
      case _ =>
        var disk := if removal.Removed? then Written(s.disk, healed, large) else WrittenBeside(s.disk, healed, large);
        s.(disk := disk, memo := if overtaken then s.memo else Some(Memo(healed, None)))
  }

  /** The journal forces the rebuild whenever it cannot be proved absent. */
  function GraphShortcut(d: Disk, m: Manifest): bool {
    d.journal.Absent? && d.graph.Some? && d.graph.value.graph.rootHash == m.rootHash
  }

  /** The steps of a call in flight up to its memo. */
  function Advance(s: State, c: Call, step: Step): State {
    match step
    case WriteManifest(large, ok) =>
      if !c.phase.Writing? then s
      else if DiskCacheCurrent(c) || !ok then s.(call := Some(c.(phase := Graphing)))
      else if large then s.(disk := s.disk.(sharded := Some(c.manifest)), call := Some(c.(phase := Removing(true))))
      else s.(disk := s.disk.(single := Some(c.manifest)), call := Some(c.(phase := Removing(false))))
    case RemoveOther(ok) =>
      if !c.phase.Removing? then s
      else
        var disk := if !ok then s.disk else if c.phase.large then s.disk.(single := None) else s.disk.(sharded := None);
        s.(disk := disk, call := Some(c.(phase := Journaling, persistedRootHash := Some(c.manifest.rootHash))))
    case WriteJournal(ok) =>
      if !c.phase.Journaling? then s
      else
        var journal := if ok then Pending(c.manifest.generation, c.manifest.rootHash) else s.disk.journal;
        s.(disk := s.disk.(journal := journal), call := Some(c.(phase := Graphing)))
    case WriteGraph(overCap, ok) =>
      if !c.phase.Graphing? then s
      else if GraphShortcut(s.disk, c.manifest) then s.(call := Some(c.(phase := Clearing, attempted := false)))
      else if overCap then s.(call := Some(c.(phase := Clearing, attempted := true)))
      else if ok then
        s.(disk := s.disk.(graph := Some(GraphFile(c.manifest.generation, c.graph)), builtBy := s.version),
           call := Some(c.(phase := Clearing, attempted := true)))
      else s.(call := Some(c.(phase := Publishing, attempted := true)))
    case ClearJournal(ok) =>
      if !c.phase.Clearing? then s
      else
        s.(disk := if ok then s.disk.(journal := Absent) else s.disk, call := Some(c.(phase := Publishing)))
    case PublishMemo(overtaken) =>
      if !c.phase.Publishing? then s
      else
        s.(memo := if overtaken then s.memo else Some(Memo(c.manifest, c.persistedRootHash)),
           call := Some(c.(phase := Scanning)))
    case _ => s
  }

  ghost function Apply(w: World, s: State, step: Step): State {
    match step
    case Begin(files, texts, commit) =>
      if s.call.Some? then s
      else
        s.(call := Some(BegunCall(w, s, files, texts, commit)))
    case ShortcutRepair(dropped, large, ok, overtaken, removal) =>
      if s.call.Some? || s.memo.None? then s
      else Repair(w, s, s.memo.value.manifest, dropped, large, ok, overtaken, removal)
    case ScanRepair(dropped, large, ok, overtaken, removal) =>
      if s.call.None? || !s.call.value.phase.Scanning? then s
      else Repair(w, s, s.call.value.manifest, dropped, large, ok, overtaken, removal).(call := None)
    case Invalidate(relPaths) =>
      if s.memo.None? then s
      else
        var m := s.memo.value.manifest;
        s.(memo := Some(s.memo.value.(manifest := m.(files := m.files - relPaths))))
    case DamageJournal => if s.disk.journal.Pending? then s.(disk := s.disk.(journal := Corrupt)) else s
    case Crash => s.(memo := None, call := None)
    case Upgrade(version) => s.(version := version, memo := None, call := None)
    case _ => if s.call.Some? then Advance(s, s.call.value, step) else s
  }

  // ----- what every run keeps

  /** What is claimed of an assembled manifest, a memo's manifest and a graph, each of one version. */
  datatype Claims = Claims(
    made: (string, Manifest) -> bool, memo: (string, Manifest) -> bool, graph: (string, TlGraph) -> bool)

  predicate DiskUpholds(claims: Claims, d: Disk) {
    && (d.single.Some? ==> claims.made(d.single.value.engineVersion, d.single.value))
    && (d.sharded.Some? ==> claims.made(d.sharded.value.engineVersion, d.sharded.value))
    && (d.graph.Some? ==> claims.graph(d.builtBy, d.graph.value.graph))
  }

  predicate Upholds(claims: Claims, s: State) {
    && DiskUpholds(claims, s.disk)
    && (s.memo.Some? ==> claims.memo(s.version, s.memo.value.manifest))
    && (s.call.Some? ==> CallUpholds(claims, s.version, s.call.value))
    && (s.call.Some? && s.call.value.phase.Clearing? && !s.disk.journal.Absent? ==> s.call.value.attempted)
  }

  predicate CallUpholds(claims: Claims, v: string, c: Call) {
    claims.made(v, c.manifest) && claims.memo(v, c.manifest) && claims.graph(v, c.graph)
  }

  lemma AdvanceUpholds(claims: Claims, s: State, c: Call, step: Step)
    requires Upholds(claims, s) && s.call == Some(c) && c.manifest.engineVersion == s.version
    ensures Upholds(claims, Advance(s, c, step))
  {
  }

  lemma RepairUpholds(claims: Claims, w: World, s: State, m: Manifest, dropped: set<string>, large: bool, ok: bool, overtaken: bool,
                      removal: Removal)
    requires Upholds(claims, s) && (s.call.Some? ==> !s.call.value.phase.Clearing?)
    requires var healed := Healed(w, m, dropped);
      healed.engineVersion == s.version && claims.made(s.version, healed) && claims.memo(s.version, healed)
    ensures Upholds(claims, Repair(w, s, m, dropped, large, ok, overtaken, removal))
  {
  }

  /** A memo's entries may have been dropped since, so only its files are as some run produced them. */
  ghost predicate MemoMade(w: World, v: string, m: Manifest) {
    m.engineVersion == v && ProducedFiles(w.engines(v), m.files) && CleanPaths(m.files)
  }

  ghost predicate BuiltFrom(w: World, v: string, graph: TlGraph) {
    exists m :: MadeBy(w, v, m) && graph == GraphOf(w, m)
  }

  ghost function ClaimsOf(w: World): Claims {
    Claims((v, m) => MadeBy(w, v, m), (v, m) => MemoMade(w, v, m), (v, g) => BuiltFrom(w, v, g))
  }

  ghost predicate Invariant(w: World, s: State) {
    && Upholds(ClaimsOf(w), s)
    && (s.call.Some? ==> s.call.value.graph == GraphOf(w, s.call.value.manifest))
  }

  /** Enumerated paths are free of tabs and newlines. */
  predicate CleanStep(step: Step) {
    step.Begin? ==> forall f :: f in step.files ==> Merkle.Clean(f.path)
  }

  lemma SeedIsProduced(w: World, s: State)
    requires Invariant(w, s)
    ensures ProducedFiles(w.engines(s.version), SeedFiles(s))
  {
    if s.memo.Some? {
      assert MemoMade(w, s.version, s.memo.value.manifest);
    } else if Seed(s).Some? {
      assert MadeBy(w, s.version, Seed(s).value);
    }
  }

  lemma AssembledIsMade(w: World, s: State, files: seq<EnumeratedFile>, texts: Texts, commit: string)
    requires SoundWorld(w) && ProducedFiles(w.engines(s.version), SeedFiles(s)) && CleanStep(Begin(files, texts, commit))
    ensures MadeBy(w, s.version, Assembled(w, s, files, texts, commit))
  {
    var seedFiles := SeedFiles(s);
    var engine := w.engines(s.version);
    BuildKeepsProduced(engine, seedFiles, files, texts);
    var entries := Entries(engine, seedFiles, files, texts);
    forall path | path in entries
      ensures Merkle.Clean(path) && Merkle.Clean(entries[path].contentSha256)
    {
      EntriesMembers(engine, seedFiles, files, texts, path);
      ProducedHashIsClean(engine, path, entries[path]);
    }
  }

  lemma ProducedHashIsClean(engine: Engine, path: string, e: IndexedFile)
    requires SoundEngine(engine) && Produced(engine, path, e)
    ensures Merkle.Clean(e.contentSha256)
  {
    if !IsPlaceholder(e) {
      var raw :| ExtractedFrom(engine, e, raw);
    }
  }

  ghost predicate DiskMade(w: World, d: Disk) {
    DiskUpholds(ClaimsOf(w), d)
  }

  lemma FewerFilesMade(w: World, v: string, m: Manifest, dropped: set<string>)
    requires MemoMade(w, v, m)
    ensures ProducedFiles(w.engines(v), m.files - dropped) && CleanPaths(m.files - dropped)
  {
    var files := m.files - dropped;
    forall path | path in files
      ensures Produced(w.engines(v), path, files[path])
      ensures Merkle.Clean(path) && Merkle.Clean(files[path].contentSha256)
    {
      assert path in m.files && files[path] == m.files[path];
    }
  }

  lemma HealedIsMade(w: World, v: string, m: Manifest, dropped: set<string>)
    requires MemoMade(w, v, m)
    ensures MadeBy(w, v, Healed(w, m, dropped)) && MemoMade(w, v, Healed(w, m, dropped))
  {
    FewerFilesMade(w, v, m, dropped);
  }

  lemma BeginKeepsInvariant(w: World, s: State, files: seq<EnumeratedFile>, texts: Texts, commit: string)
    requires SoundWorld(w) && Invariant(w, s) && CleanStep(Begin(files, texts, commit)) && s.call.None?
    ensures Invariant(w, Apply(w, s, Begin(files, texts, commit)))
  {
    SeedIsProduced(w, s);
    AssembledIsMade(w, s, files, texts, commit);
    var c := BegunCall(w, s, files, texts, commit);
    assert BuiltFrom(w, s.version, c.graph);
    assert CallUpholds(ClaimsOf(w), s.version, c);
  }

  lemma RepairKeepsInvariant(w: World, s: State, m: Manifest, dropped: set<string>, large: bool, ok: bool, overtaken: bool,
                             removal: Removal, s': State)
    requires Invariant(w, s) && MemoMade(w, s.version, m) && (s.call.Some? ==> !s.call.value.phase.Clearing?)
    requires s' == Repair(w, s, m, dropped, large, ok, overtaken, removal)
    ensures Invariant(w, s')
  {
    HealedIsMade(w, s.version, m, dropped);
    RepairUpholds(ClaimsOf(w), w, s, m, dropped, large, ok, overtaken, removal);
    RepairKeepsCall(w, s, m, dropped, large, ok, overtaken, removal);
  }

  lemma RepairKeepsCall(w: World, s: State, m: Manifest, dropped: set<string>, large: bool, ok: bool, overtaken: bool,
                        removal: Removal)
    ensures var call := Repair(w, s, m, dropped, large, ok, overtaken, removal).call; call == s.call || call == None
  {
  }

  lemma InvalidateKeepsInvariant(w: World, s: State, relPaths: set<string>)
    requires Invariant(w, s)
    ensures Invariant(w, Apply(w, s, Invalidate(relPaths)))
  {
    if s.memo.Some? {
      FewerFilesMade(w, s.version, s.memo.value.manifest, relPaths);
      var m := s.memo.value.manifest;
      assert ClaimsOf(w).memo(s.version, m.(files := m.files - relPaths));
    }
  }

  lemma StepKeepsInvariant(w: World, s: State, step: Step)
    requires SoundWorld(w) && Invariant(w, s) && CleanStep(step)
    ensures Invariant(w, Apply(w, s, step))
  {
    match step
    case Begin(files, texts, commit) =>
      if s.call.None? {
        BeginKeepsInvariant(w, s, files, texts, commit);
      }
    case ShortcutRepair(_, _, _, _, _) => ShortcutRepairKeepsInvariant(w, s, step, Apply(w, s, step));
    case ScanRepair(_, _, _, _, _) => ScanRepairKeepsInvariant(w, s, step, Apply(w, s, step));
    case Invalidate(relPaths) => InvalidateKeepsInvariant(w, s, relPaths);
    case DamageJournal => LossKeepsInvariant(w, s, step);
    case Crash => LossKeepsInvariant(w, s, step);
    case Upgrade(version) => LossKeepsInvariant(w, s, step);
    case _ =>
      if s.call.Some? {
        AdvanceKeepsInvariant(w, s, s.call.value, step);
      }
  }

  lemma ShortcutRepairKeepsInvariant(w: World, s: State, step: Step, s': State)
    requires Invariant(w, s) && step.ShortcutRepair? && s' == Apply(w, s, step)
    ensures Invariant(w, s')
  {
    ShortcutRepairIs(w, s, step);
    if s.call.None? && s.memo.Some? {
      var m := s.memo.value.manifest;
      RememberedIsMade(w, s, m);
      RepairKeepsInvariant(w, s, m, step.dropped, step.large, step.ok, step.overtaken, step.removal, s');
    }
  }

  lemma ShortcutRepairIs(w: World, s: State, step: Step)
    requires step.ShortcutRepair?
    ensures s.call.Some? || s.memo.None? ==> Apply(w, s, step) == s
    ensures s.call.None? && s.memo.Some? ==>
      Apply(w, s, step) == Repair(w, s, s.memo.value.manifest, step.dropped, step.large, step.ok, step.overtaken, step.removal)
  {
  }

  lemma RememberedIsMade(w: World, s: State, m: Manifest)
    requires Invariant(w, s)
    ensures s.memo.Some? && s.memo.value.manifest == m ==> MemoMade(w, s.version, m)
    ensures s.call.Some? && s.call.value.manifest == m ==> MemoMade(w, s.version, m)
  {
  }

  lemma ScanRepairKeepsInvariant(w: World, s: State, step: Step, s': State)
    requires Invariant(w, s) && step.ScanRepair? && s' == Apply(w, s, step)
    ensures Invariant(w, s')
  {
    if s.call.Some? && s.call.value.phase.Scanning? {
      var m := s.call.value.manifest;
      var repaired := Repair(w, s, m, step.dropped, step.large, step.ok, step.overtaken, step.removal);
      assert s' == repaired.(call := None);
      RememberedIsMade(w, s, m);
      RepairKeepsInvariant(w, s, m, step.dropped, step.large, step.ok, step.overtaken, step.removal, repaired);
      EndKeepsInvariant(w, repaired, s');
    } else {
      assert s' == s;
    }
  }

  lemma EndKeepsInvariant(w: World, s: State, s': State)
    requires Invariant(w, s) && s' == s.(call := None)
    ensures Invariant(w, s')
  {
  }

  lemma LossKeepsInvariant(w: World, s: State, step: Step)
    requires Invariant(w, s) && (step.DamageJournal? || step.Crash? || step.Upgrade?)
    ensures Invariant(w, Apply(w, s, step))
  {
    LossKeepsGraph(w, s, step);
  }

  lemma LossKeepsGraph(w: World, s: State, step: Step)
    requires step.DamageJournal? || step.Crash? || step.Upgrade?
    ensures var s' := Apply(w, s, step);
      && s'.disk == s.disk.(journal := s'.disk.journal)
      && (s'.disk.journal == s.disk.journal || (step.DamageJournal? && s.disk.journal.Pending?))
      && (step.DamageJournal? ==> s' == s.(disk := s'.disk))
      && (!step.DamageJournal? ==> s'.memo == None && s'.call == None)
  {
  }

  lemma AdvanceKeepsInvariant(w: World, s: State, c: Call, step: Step)
    requires Invariant(w, s) && s.call == Some(c)
    ensures Invariant(w, Advance(s, c, step))
  {
    AdvanceUpholds(ClaimsOf(w), s, c, step);
    AdvanceKeepsGraph(s, c, step);
  }

  lemma AdvanceKeepsGraph(s: State, c: Call, step: Step)
    requires s.call == Some(c)
    ensures Advance(s, c, step).call.Some?
    ensures Advance(s, c, step).call.value.manifest == c.manifest && Advance(s, c, step).call.value.graph == c.graph
  {
  }

  ghost function Run(w: World, s: State, steps: seq<Step>): State {
    if steps == [] then s else Apply(w, Run(w, s, steps[..|steps| - 1]), steps[|steps| - 1])
  }

  lemma {:induction false} RunKeepsInvariant(w: World, s: State, steps: seq<Step>)
    requires SoundWorld(w) && Invariant(w, s) && forall step :: step in steps ==> CleanStep(step)
    ensures Invariant(w, Run(w, s, steps))
  {
    if steps != [] {
      var init, last := steps[..|steps| - 1], steps[|steps| - 1];
      RunKeepsInvariant(w, s, init);
      OneMoreStep(w, Run(w, s, init), last, Run(w, s, steps));
    }
  }

  lemma OneMoreStep(w: World, s: State, step: Step, s': State)
    requires SoundWorld(w) && Invariant(w, s) && CleanStep(step) && s' == Apply(w, s, step)
    ensures Invariant(w, s')
  {
    StepKeepsInvariant(w, s, step);
  }

  function EmptyState(version: string): State {
    State(version, Disk(None, None, Absent, None, version), None, None)
  }

  lemma EmptyStateIsInvariant(w: World, version: string)
    ensures Invariant(w, EmptyState(version))
  {
  }

  /** Only a call past its graph step clears the journal. */
  lemma ClearingAttempted(claims: Claims, s: State, c: Call, ok: bool)
    requires Upholds(claims, s) && s.call == Some(c) && !s.disk.journal.Absent?
    requires Advance(s, c, ClearJournal(ok)).disk.journal.Absent?
    ensures c.attempted
  {
  }

  /** On every run: a journal that is pending or corrupt is cleared only after a rebuild was attempted. */
  lemma JournalForcesRebuild(w: World, version: string, steps: seq<Step>, ok: bool)
    requires SoundWorld(w) && forall step :: step in steps ==> CleanStep(step)
    requires !Run(w, EmptyState(version), steps).disk.journal.Absent?
    requires Apply(w, Run(w, EmptyState(version), steps), ClearJournal(ok)).disk.journal.Absent?
    ensures var s := Run(w, EmptyState(version), steps); s.call.Some? && s.call.value.attempted
  {
    EmptyStateIsInvariant(w, version);
    RunKeepsInvariant(w, EmptyState(version), steps);
    var s := Run(w, EmptyState(version), steps);
    if s.call.Some? {
      ClearingAttempted(ClaimsOf(w), s, s.call.value, ok);
    }
  }

  // ----- a completed call

  /** A whole call whose writes succeed and whose graph is under the cap, up to the cleared journal. */
  ghost function Complete(w: World, s: State, files: seq<EnumeratedFile>, texts: Texts, commit: string, large: bool): State {
    var s1 := Apply(w, s, Begin(files, texts, commit));
    var s2 := Apply(w, s1, WriteManifest(large, true));
    var s3 := Apply(w, s2, RemoveOther(true));
    var s4 := Apply(w, s3, WriteJournal(true));
    var s5 := Apply(w, s4, WriteGraph(false, true));
    Apply(w, s5, ClearJournal(true))
  }

  /** The disk cache is what the process believes it wrote or read. */
  predicate BeliefTrue(s: State) {
    Belief(s).Some? ==>
      && Loaded(s.disk).Some?
      && Loaded(s.disk).value.rootHash == Belief(s).value
      && Loaded(s.disk).value.engineVersion == s.version
  }

  /** Nothing is written, no journal is left, and the graph that matches by root hash is another version's. */
  ghost predicate KeepsForeignGraph(w: World, s: State, c: Call) {
    DiskCacheCurrent(c) && GraphShortcut(s.disk, c.manifest) && s.disk.builtBy != s.version
  }

  /** The graph on disk is the graph of the manifest on disk, its generation aside. */
  ghost predicate GraphIsOfDisk(w: World, d: Disk) {
    Loaded(d).Some? && d.graph.Some? && d.graph.value.graph == GraphOf(w, Loaded(d).value)
  }

  /** The disk after such a call. */
  function CompletedDisk(version: string, d: Disk, c: Call, large: bool): Disk {
    var d1 :=
      if DiskCacheCurrent(c) then d
      else Written(d, c.manifest, large).(journal := Pending(c.manifest.generation, c.manifest.rootHash));
    var d2 :=
      if GraphShortcut(d1, c.manifest) then d1
      else d1.(graph := Some(GraphFile(c.manifest.generation, c.graph)), builtBy := version);
    d2.(journal := Absent)
  }

  lemma CompleteReaches(w: World, s: State, files: seq<EnumeratedFile>, texts: Texts, commit: string, large: bool)
    requires s.call.None?
    ensures Complete(w, s, files, texts, commit, large).disk
         == CompletedDisk(s.version, s.disk, BegunCall(w, s, files, texts, commit), large)
  {
    CompleteCall(w, s, files, texts, commit, large);
  }

  lemma CompleteCall(w: World, s: State, files: seq<EnumeratedFile>, texts: Texts, commit: string, large: bool)
    requires s.call.None?
    ensures var s' := Complete(w, s, files, texts, commit, large);
      var c := BegunCall(w, s, files, texts, commit);
      && s'.version == s.version && s'.memo == s.memo
      && s'.call.Some? && s'.call.value.phase.Publishing?
      && s'.call.value.manifest == c.manifest && s'.call.value.persistedRootHash == Some(c.manifest.rootHash)
      && s'.disk == CompletedDisk(s.version, s.disk, c, large)
  {
    var c := BegunCall(w, s, files, texts, commit);
    var s1 := Apply(w, s, Begin(files, texts, commit));
    var s4 := Apply(w, Apply(w, Apply(w, s1, WriteManifest(large, true)), RemoveOther(true)), WriteJournal(true));
    FirstHalf(w, s1, c, large);
    SecondHalf(w, s4, s4.call.value);
  }

  lemma FirstHalf(w: World, s: State, c: Call, large: bool)
    requires s.call == Some(c) && c.phase.Writing?
    ensures var s' := Apply(w, Apply(w, Apply(w, s, WriteManifest(large, true)), RemoveOther(true)), WriteJournal(true));
      && s'.version == s.version && s'.memo == s.memo
      && s'.call == Some(c.(phase := Graphing, persistedRootHash := Some(c.manifest.rootHash)))
      && s'.disk ==
           if DiskCacheCurrent(c) then s.disk
           else Written(s.disk, c.manifest, large).(journal := Pending(c.manifest.generation, c.manifest.rootHash))
  {
  }

  lemma SecondHalf(w: World, s: State, c: Call)
    requires s.call == Some(c) && c.phase.Graphing?
    ensures var s' := Apply(w, Apply(w, s, WriteGraph(false, true)), ClearJournal(true));
      && s'.version == s.version && s'.memo == s.memo
      && s'.call == Some(c.(phase := Publishing, attempted := !GraphShortcut(s.disk, c.manifest)))
      && s'.disk ==
           (if GraphShortcut(s.disk, c.manifest) then s.disk
            else s.disk.(graph := Some(GraphFile(c.manifest.generation, c.graph)), builtBy := s.version))
             .(journal := Absent)
  {
    var s1 := Apply(w, s, WriteGraph(false, true));
    var g := GraphFile(c.manifest.generation, c.graph);
    assert s1.call == Some(c.(phase := Clearing, attempted := !GraphShortcut(s.disk, c.manifest)));
    assert s1.disk ==
      if GraphShortcut(s.disk, c.manifest) then s.disk else s.disk.(graph := Some(g), builtBy := s.version);
  }

  /** A graph of this version that matches by root hash is the manifest's. */
  lemma MatchingGraphIsOfManifest(w: World, version: string, d: Disk, m: Manifest)
    requires SoundWorld(w) && MadeBy(w, version, m) && GraphShortcut(d, m) && d.builtBy == version
    requires BuiltFrom(w, d.builtBy, d.graph.value.graph)
    ensures d.graph.value.graph == GraphOf(w, m)
  {
    var m' :| MadeBy(w, version, m') && d.graph.value.graph == GraphOf(w, m');
    assert GraphOf(w, m').rootHash == m'.rootHash;
    RootHashDeterminesGraph(w, version, m', m);
  }

  /** What a completed call leaves of the graph, once a kept graph is known to be right. */
  lemma CompletedGraph(w: World, version: string, d: Disk, c: Call, large: bool)
    requires c.graph == GraphOf(w, c.manifest)
    requires DiskCacheCurrent(c) && GraphShortcut(d, c.manifest) ==> d.graph.value.graph == GraphOf(w, c.manifest)
    ensures var d' := CompletedDisk(version, d, c, large);
      d'.graph.Some? && d'.graph.value.graph == GraphOf(w, c.manifest) && d'.journal.Absent?
  {
  }

  lemma CompletedGraphIsOfManifest(w: World, s: State, files: seq<EnumeratedFile>, texts: Texts, commit: string, large: bool)
    requires SoundWorld(w) && Invariant(w, s) && s.call.None? && CleanStep(Begin(files, texts, commit))
    requires !KeepsForeignGraph(w, s, BegunCall(w, s, files, texts, commit))
    ensures var s' := Complete(w, s, files, texts, commit, large);
      s'.disk.graph.Some? && s'.disk.graph.value.graph == GraphOf(w, Assembled(w, s, files, texts, commit))
    ensures Complete(w, s, files, texts, commit, large).disk.journal.Absent?
  {
    SeedIsProduced(w, s);
    AssembledIsMade(w, s, files, texts, commit);
    CompleteReaches(w, s, files, texts, commit, large);
    var c := BegunCall(w, s, files, texts, commit);
    if DiskCacheCurrent(c) && GraphShortcut(s.disk, c.manifest) {
      MatchingGraphIsOfManifest(w, s.version, s.disk, c.manifest);
    }
    CompletedGraph(w, s.version, s.disk, c, large);
  }

  /**
   * After any history, with no foreign graph kept: the completed call leaves the graph of the disk
   * manifest exactly when it did not skip the manifest write on a wrong belief about the disk.
   */
  lemma CompletedGraphIsOfDiskIff(w: World, s: State, files: seq<EnumeratedFile>, texts: Texts, commit: string, large: bool)
    requires SoundWorld(w) && Invariant(w, s) && s.call.None? && CleanStep(Begin(files, texts, commit))
    requires !KeepsForeignGraph(w, s, BegunCall(w, s, files, texts, commit))
    requires Loaded(s.disk).Some? ==> Loaded(s.disk).value.engineVersion == s.version
    ensures var s' := Complete(w, s, files, texts, commit, large);
      GraphIsOfDisk(w, s'.disk)
      <==> !(DiskCacheCurrent(BegunCall(w, s, files, texts, commit)) && !BeliefTrue(s))
  {
    CompletedGraphIsOfManifest(w, s, files, texts, commit, large);
    SeedIsProduced(w, s);
    AssembledIsMade(w, s, files, texts, commit);
    CompleteReaches(w, s, files, texts, commit, large);
    var c := BegunCall(w, s, files, texts, commit);
    var s' := Complete(w, s, files, texts, commit, large);
    if DiskCacheCurrent(c) {
      assert Loaded(s'.disk) == Loaded(s.disk);
      if BeliefTrue(s) {
        RootHashDeterminesGraph(w, s.version, Loaded(s.disk).value, c.manifest);
      }
    } else {
      assert Loaded(s'.disk) == Some(c.manifest);
    }
  }

  // ----- runs in which the belief cannot go wrong

  /** No load is overtaken by an invalidation, the other cache form is removed, and the version stays. */
  predicate Quiet(step: Step) {
    match step
    case RemoveOther(ok) => ok
    case PublishMemo(overtaken) => !overtaken
    case ScanRepair(_, _, _, overtaken, removal) => !overtaken && !removal.NotRemoved?
    case ShortcutRepair(_, _, _, overtaken, removal) => !overtaken && !removal.NotRemoved?
    case Upgrade(_) => false
    case _ => true
  }

  predicate Holds(s: State, believed: Option<string>) {
    believed.Some? ==> Loaded(s.disk).Some? && Loaded(s.disk).value.rootHash == believed.value
  }

  ghost predicate OneVersion(version: string, d: Disk) {
    && (d.single.Some? ==> d.single.value.engineVersion == version)
    && (d.sharded.Some? ==> d.sharded.value.engineVersion == version)
    && (d.graph.Some? ==> d.builtBy == version)
  }

  /** What the call in flight believes of the disk, phase by phase. */
  ghost predicate CallBelief(s: State, c: Call) {
    if c.phase.Removing? then
      if c.phase.large then s.disk.sharded == Some(c.manifest) else s.disk.single == Some(c.manifest)
    else if c.phase.Scanning? then true
    else Holds(s, c.persistedRootHash)
  }

  ghost predicate QuietInvariant(s: State) {
    && OneVersion(s.version, s.disk)
    && (s.memo.Some? ==> s.memo.value.manifest.engineVersion == s.version)
    && (s.call.Some? ==> s.call.value.manifest.engineVersion == s.version && CallBelief(s, s.call.value))
    && (s.memo.Some? && (s.call.None? || s.call.value.phase.Scanning?) ==> Holds(s, s.memo.value.persistedRootHash))
  }

  lemma QuietRepairKeepsInvariant(w: World, s: State, m: Manifest, dropped: set<string>, large: bool, ok: bool, removal: Removal)
    requires !removal.NotRemoved? && QuietInvariant(s) && m.engineVersion == s.version && (s.call.None? || s.call.value.phase.Scanning?)
    ensures QuietInvariant(Repair(w, s, m, dropped, large, ok, false, removal).(call := None))
  {
    assert Healed(w, m, dropped).engineVersion == s.version;
  }

  lemma QuietAdvanceKeepsInvariant(w: World, s: State, c: Call, step: Step)
    requires QuietInvariant(s) && s.call == Some(c) && Quiet(step) && !step.ScanRepair? && !step.WriteGraph?
    ensures QuietInvariant(Advance(s, c, step)) && Advance(s, c, step).version == s.version
  {
  }

  lemma QuietWriteGraphKeepsInvariant(w: World, s: State, c: Call, overCap: bool, ok: bool)
    requires QuietInvariant(s) && s.call == Some(c)
    ensures QuietInvariant(Advance(s, c, WriteGraph(overCap, ok)))
    ensures Advance(s, c, WriteGraph(overCap, ok)).version == s.version
  {
    var s' := Advance(s, c, WriteGraph(overCap, ok));
    if c.phase.Graphing? {
      assert Loaded(s'.disk) == Loaded(s.disk);
      assert Holds(s, c.persistedRootHash) && s'.call.value.persistedRootHash == c.persistedRootHash;
    }
  }

  lemma QuietStepKeepsInvariant(w: World, s: State, step: Step)
    requires QuietInvariant(s) && Quiet(step)
    ensures QuietInvariant(Apply(w, s, step)) && Apply(w, s, step).version == s.version
  {
    match step
    case Begin(files, texts, commit) =>
    case ShortcutRepair(dropped, large, ok, overtaken, removal) =>
      if s.call.None? && s.memo.Some? {
        QuietRepairKeepsInvariant(w, s, s.memo.value.manifest, dropped, large, ok, removal);
      }
    case ScanRepair(dropped, large, ok, overtaken, removal) =>
      if s.call.Some? && s.call.value.phase.Scanning? {
        QuietRepairKeepsInvariant(w, s, s.call.value.manifest, dropped, large, ok, removal);
      }
    case WriteGraph(overCap, ok) =>
      if s.call.Some? {
        QuietWriteGraphKeepsInvariant(w, s, s.call.value, overCap, ok);
      }
    case Invalidate(relPaths) =>
    case DamageJournal =>
    case Crash =>
    case Upgrade(version) => assert false;
    case _ =>
      if s.call.Some? {
        QuietAdvanceKeepsInvariant(w, s, s.call.value, step);
      }
  }

  lemma {:induction false} QuietRunKeepsInvariant(w: World, s: State, steps: seq<Step>)
    requires QuietInvariant(s) && forall step :: step in steps ==> Quiet(step)
    ensures QuietInvariant(Run(w, s, steps)) && Run(w, s, steps).version == s.version
  {
    if steps != [] {
      var init := steps[..|steps| - 1];
      assert steps == init + [steps[|steps| - 1]];
      QuietRunKeepsInvariant(w, s, init);
      QuietStepKeepsInvariant(w, Run(w, s, init), steps[|steps| - 1]);
    }
  }

  /**
   * Crash safety: after every quiet history of crashes, failed writes, over-cap graphs, repairs,
   * invalidations between calls and damaged journals, the next completed call leaves on disk exactly
   * the graph of the manifest on disk.
   */
  lemma CrashSafety(w: World, version: string, steps: seq<Step>, files: seq<EnumeratedFile>, texts: Texts, commit: string, large: bool)
    requires SoundWorld(w) && forall step :: step in steps ==> CleanStep(step) && Quiet(step)
    requires CleanStep(Begin(files, texts, commit)) && Run(w, EmptyState(version), steps).call.None?
    ensures GraphIsOfDisk(w, Complete(w, Run(w, EmptyState(version), steps), files, texts, commit, large).disk)
  {
    RunKeepsInvariant(w, EmptyState(version), steps);
    QuietRunKeepsInvariant(w, EmptyState(version), steps);
    var s := Run(w, EmptyState(version), steps);
    assert !KeepsForeignGraph(w, s, BegunCall(w, s, files, texts, commit));
    CompletedGraphIsOfDiskIff(w, s, files, texts, commit, large);
    CompletedGraphIsOfManifest(w, s, files, texts, commit, large);
  }

  // ----- the generation of the pair

  /** The graph on disk carries the generation of the manifest on disk. */
  predicate GenerationsAgree(d: Disk) {
    Loaded(d).Some? && d.graph.Some? && d.graph.value.generation == Loaded(d).value.generation
  }

  /** The manifest on disk has the generation of the graph that stays, or of the one about to be rebuilt. */
  predicate ManifestKeepsPace(s: State, c: Call) {
    && Loaded(s.disk).Some?
    && Loaded(s.disk).value.generation
       == if GraphShortcut(s.disk, c.manifest) then s.disk.graph.value.generation else c.manifest.generation
  }

  /**
   * From any state: a completed call leaves equal generations exactly when it writes its manifest, or
   * the manifest it leaves on disk already keeps pace with the graph it keeps or rebuilds.
   */
  lemma CompletedGenerationsAgreeIff(w: World, s: State, files: seq<EnumeratedFile>, texts: Texts, commit: string, large: bool)
    requires s.call.None?
    ensures var c := BegunCall(w, s, files, texts, commit);
      GenerationsAgree(Complete(w, s, files, texts, commit, large).disk)
      <==> !DiskCacheCurrent(c) || ManifestKeepsPace(s, c)
  {
    CompleteReaches(w, s, files, texts, commit, large);
  }

  /** A graph that goes by the manifest's root hash has its generation. */
  predicate InStep(d: Disk) {
    Loaded(d).Some? ==> NotBehind(d, Loaded(d).value)
  }

  predicate NotBehind(d: Disk, m: Manifest) {
    d.graph.Some? && d.graph.value.graph.rootHash == m.rootHash ==> d.graph.value.generation == m.generation
  }

  /** No gap that a root-hash shortcut would keep: a journal forces the rebuild. */
  predicate NoGap(d: Disk) {
    d.journal.Absent? ==> InStep(d)
  }

  /** The manifest on disk is `m` as far as hash and generation go. */
  predicate OnDisk(d: Disk, m: Manifest) {
    Loaded(d).Some? && Loaded(d).value.rootHash == m.rootHash && Loaded(d).value.generation == m.generation
  }

  /**
   * What keeps the pair in step: a manifest rename followed by its journal rename, with no crash or
   * failure between them; a graph left out as over the cap, or a repair, only where no graph goes by the
   * manifest's root hash with another generation.
   */
  ghost predicate Orderly(w: World, s: State, step: Step) {
    match step
    case WriteManifest(_, ok) => ok || (s.call.Some? ==> s.call.value.persistedRootHash == Some(s.call.value.manifest.rootHash))
    case RemoveOther(ok) => ok
    case WriteJournal(ok) => ok
    case WriteGraph(overCap, _) => overCap && s.call.Some? ==> NotBehind(s.disk, s.call.value.manifest)
    case PublishMemo(overtaken) => !overtaken
    case ScanRepair(dropped, _, _, overtaken, removal) =>
      !overtaken && !removal.NotRemoved? && (s.call.Some? ==> NotBehind(s.disk, Healed(w, s.call.value.manifest, dropped)))
    case ShortcutRepair(dropped, _, _, overtaken, removal) =>
      !overtaken && !removal.NotRemoved? && (s.memo.Some? ==> NotBehind(s.disk, Healed(w, s.memo.value.manifest, dropped)))
    case Crash => s.call.Some? ==> !s.call.value.phase.Removing? && !s.call.value.phase.Journaling?
    case Upgrade(_) => s.call.Some? ==> !s.call.value.phase.Removing? && !s.call.value.phase.Journaling?
    case _ => true
  }

  predicate MemoInStep(s: State) {
    s.memo.Some? && s.memo.value.persistedRootHash.Some? ==>
      s.memo.value.persistedRootHash == Some(s.memo.value.manifest.rootHash) && OnDisk(s.disk, s.memo.value.manifest)
  }

  predicate CallInStep(s: State, c: Call) {
    match c.phase
    case Writing => NoGap(s.disk) && (c.persistedRootHash == Some(c.manifest.rootHash) ==> OnDisk(s.disk, c.manifest))
    case Removing(large) => if large then s.disk.sharded == Some(c.manifest) else s.disk.single == Some(c.manifest)
    case Journaling => OnDisk(s.disk, c.manifest) && c.persistedRootHash == Some(c.manifest.rootHash)
    case Graphing => OnDisk(s.disk, c.manifest) && c.persistedRootHash == Some(c.manifest.rootHash) && NoGap(s.disk)
    case Clearing => OnDisk(s.disk, c.manifest) && c.persistedRootHash == Some(c.manifest.rootHash) && InStep(s.disk)
    case Publishing => OnDisk(s.disk, c.manifest) && c.persistedRootHash == Some(c.manifest.rootHash) && NoGap(s.disk)
    case Scanning => NoGap(s.disk) && MemoInStep(s)
  }

  predicate PaceInvariant(s: State) {
    if s.call.Some? then CallInStep(s, s.call.value) else NoGap(s.disk) && MemoInStep(s)
  }

  lemma PaceOfRepair(w: World, s: State, m: Manifest, dropped: set<string>, large: bool, ok: bool, removal: Removal)
    requires NoGap(s.disk) && MemoInStep(s) && !removal.NotRemoved? && NotBehind(s.disk, Healed(w, m, dropped))
    ensures var s' := Repair(w, s, m, dropped, large, ok, false, removal).(call := None); NoGap(s'.disk) && MemoInStep(s')
  {
  }

  lemma PaceOfAdvance(w: World, s: State, c: Call, step: Step)
    requires s.call == Some(c) && CallInStep(s, c) && Orderly(w, s, step) && !step.ScanRepair?
    ensures PaceInvariant(Advance(s, c, step))
  {
  }

  lemma PaceOfBegin(w: World, s: State, files: seq<EnumeratedFile>, texts: Texts, commit: string)
    requires s.call.None? && PaceInvariant(s)
    ensures CallInStep(s, BegunCall(w, s, files, texts, commit))
  {
  }

  lemma StepKeepsPace(w: World, s: State, step: Step)
    requires PaceInvariant(s) && Orderly(w, s, step)
    ensures PaceInvariant(Apply(w, s, step))
  {
    match step
    case Begin(files, texts, commit) =>
      if s.call.None? {
        PaceOfBegin(w, s, files, texts, commit);
      }
    case ShortcutRepair(dropped, large, ok, overtaken, removal) =>
      if s.call.None? && s.memo.Some? {
        PaceOfRepair(w, s, s.memo.value.manifest, dropped, large, ok, removal);
      }
    case ScanRepair(dropped, large, ok, overtaken, removal) =>
      if s.call.Some? && s.call.value.phase.Scanning? {
        PaceOfRepair(w, s, s.call.value.manifest, dropped, large, ok, removal);
      }
    case Invalidate(relPaths) =>
    case DamageJournal =>
    case Crash =>
    case Upgrade(version) =>
    case _ =>
      if s.call.Some? {
        PaceOfAdvance(w, s, s.call.value, step);
      }
  }

  ghost predicate OrderlyRun(w: World, s: State, steps: seq<Step>) {
    steps == [] || (OrderlyRun(w, s, steps[..|steps| - 1]) && Orderly(w, Run(w, s, steps[..|steps| - 1]), steps[|steps| - 1]))
  }

  lemma {:induction false} RunKeepsPace(w: World, s: State, steps: seq<Step>)
    requires PaceInvariant(s) && OrderlyRun(w, s, steps)
    ensures PaceInvariant(Run(w, s, steps))
  {
    if steps != [] {
      var init := steps[..|steps| - 1];
      RunKeepsPace(w, s, init);
      StepKeepsPace(w, Run(w, s, init), steps[|steps| - 1]);
    }
  }

  /**
   * After every orderly history, whatever it crashed, damaged or left out elsewhere, the next completed
   * call leaves the graph with the generation of the manifest: a written journal forces the rebuild.
   */
  lemma GenerationsStayInStep(w: World, version: string, steps: seq<Step>, files: seq<EnumeratedFile>, texts: Texts, commit: string,
                              large: bool)
    requires OrderlyRun(w, EmptyState(version), steps) && Run(w, EmptyState(version), steps).call.None?
    ensures GenerationsAgree(Complete(w, Run(w, EmptyState(version), steps), files, texts, commit, large).disk)
  {
    RunKeepsPace(w, EmptyState(version), steps);
    var s := Run(w, EmptyState(version), steps);
    CompletedGenerationsAgreeIff(w, s, files, texts, commit, large);
    PaceOfBegin(w, s, files, texts, commit);
  }

  // ----- what an over-cap graph and a scan repair leave behind

  /** A whole call as in `Complete`, but with a graph over the cap. */
  ghost function CompleteOverCap(w: World, s: State, files: seq<EnumeratedFile>, texts: Texts, commit: string, large: bool): State {
    var s1 := Apply(w, s, Begin(files, texts, commit));
    var s4 := Apply(w, Apply(w, Apply(w, s1, WriteManifest(large, true)), RemoveOther(true)), WriteJournal(true));
    Apply(w, Apply(w, s4, WriteGraph(true, true)), ClearJournal(true))
  }

  /**
   * An over-cap call that writes its manifest clears the journal and leaves the graph as it was: stale
   * unless the graph already was the one of the new manifest.
   */
  lemma OverCapClearsJournal(w: World, s: State, files: seq<EnumeratedFile>, texts: Texts, commit: string, large: bool)
    requires s.call.None? && !DiskCacheCurrent(BegunCall(w, s, files, texts, commit))
    ensures var s' := CompleteOverCap(w, s, files, texts, commit, large);
      var m := Assembled(w, s, files, texts, commit);
      && Loaded(s'.disk) == Some(m) && s'.disk.journal.Absent? && s'.disk.graph == s.disk.graph
      && (GraphIsOfDisk(w, s'.disk) <==> s.disk.graph.Some? && s.disk.graph.value.graph == GraphOf(w, m))
  {
    var c := BegunCall(w, s, files, texts, commit);
    var s1 := Apply(w, s, Begin(files, texts, commit));
    FirstHalf(w, s1, c, large);
    var s4 := Apply(w, Apply(w, Apply(w, s1, WriteManifest(large, true)), RemoveOther(true)), WriteJournal(true));
    OverCapHalf(w, s4, s4.call.value);
  }

  lemma OverCapHalf(w: World, s: State, c: Call)
    requires s.call == Some(c) && c.phase.Graphing? && !s.disk.journal.Absent?
    ensures Apply(w, Apply(w, s, WriteGraph(true, true)), ClearJournal(true)).disk == s.disk.(journal := Absent)
  {
  }

  /** A scan repair that drops an entry rewrites the manifest only: a graph that was right no longer is. */
  lemma RepairLeavesGraphBehind(w: World, s: State, m: Manifest, dropped: set<string>, large: bool, overtaken: bool)
    requires SoundWorld(w) && MadeBy(w, s.version, m) && dropped * m.files.Keys != {}
    requires s.disk.graph.Some? && s.disk.graph.value.graph == GraphOf(w, m)
    ensures !GraphIsOfDisk(w, Repair(w, s, m, dropped, large, true, overtaken, Removed).disk)
    ensures Loaded(Repair(w, s, m, dropped, large, true, overtaken, Removed).disk) == Some(Healed(w, m, dropped))
  {
    var healed := Healed(w, m, dropped);
    HealedIsMade(w, s.version, m, dropped);
    assert Loaded(Repair(w, s, m, dropped, large, true, overtaken, Removed).disk) == Some(healed);
    assert GraphOf(w, m).rootHash == m.rootHash && GraphOf(w, healed).rootHash == healed.rootHash;
    assert healed.files.Keys != m.files.Keys by {
      var path :| path in dropped * m.files.Keys;
      assert path in m.files.Keys && path !in healed.files.Keys;
    }
    if healed.rootHash == m.rootHash {
      RootHashIdentifiesContents(w.sha, m.files, healed.files);
    }
  }

  /**
   * What a repair of `m` comes to. If it drops an entry and is written, the form it chose holds `m` without the
   * dropped entries, under their root hash and the next generation; the replaced form stays unless it was removed;
   * the memo gets the same manifest as a seed nobody believes to be on disk, unless an invalidation came in between.
   * Journal and graph stay. Else nothing changes.
   */
  lemma RepairWritesLaterManifest(w: World, s: State, m: Manifest, dropped: set<string>, large: bool, ok: bool, overtaken: bool,
                                  removal: Removal)
    ensures var s' := Repair(w, s, m, dropped, large, ok, overtaken, removal);
      var written := if large then s'.disk.sharded else s'.disk.single;
      var other := if large then s'.disk.single else s'.disk.sharded;
      var otherBefore := if large then s.disk.single else s.disk.sharded;
      if ok && exists path :: path in dropped && path in m.files then
        && written.Some? && written.value.files == m.files - dropped
        && written.value.rootHash == RootHash(w.sha, written.value.files) && written.value.generation == m.generation + 1
        && written.value == m.(files := written.value.files, rootHash := written.value.rootHash, generation := written.value.generation)
        && other == (if removal.Removed? then None else otherBefore)
        && s'.memo == (if removal.CrashedBefore? then None else if overtaken then s.memo else Some(Memo(written.value, None)))
        && s'.call == (if removal.CrashedBefore? then None else s.call)
        && s'.disk.journal == s.disk.journal && s'.disk.graph == s.disk.graph && s'.disk.builtBy == s.disk.builtBy
        && s'.version == s.version
      else s' == s
  {
    assert dropped * m.files.Keys == {} <==> !exists path :: path in dropped && path in m.files by {
      if path :| path in dropped && path in m.files {
        assert path in dropped * m.files.Keys;
      }
    }
  }

  /**
   * A call that begins assembles the entries of the enumerated files; the generation is the seed's exactly when
   * paths and content hashes are the seed's, the next one otherwise, and the first one without a seed.
   */
  lemma GenerationCountsChanges(w: World, s: State, files: seq<EnumeratedFile>, texts: Texts, commit: string)
    requires SoundWorld(w) && (Seed(s).Some? ==> MadeBy(w, s.version, Seed(s).value))
    requires s.call.None? && forall f :: f in files ==> Merkle.Clean(f.path)
    ensures var s' := Apply(w, s, Begin(files, texts, commit));
      && s'.call.Some? && s'.disk == s.disk && s'.memo == s.memo
      && var m := s'.call.value.manifest;
        && m.files == Entries(w.engines(s.version), SeedFiles(s), files, texts)
        && m.rootHash == RootHash(w.sha, m.files) && m.engineVersion == s.version && m.builtFromCommit == commit
        && (Seed(s).None? ==> m.generation == 1)
        && (Seed(s).Some? ==>
              m.generation == Seed(s).value.generation +
                if m.files.Keys == Seed(s).value.files.Keys
                   && (forall path :: path in m.files ==> m.files[path].contentSha256 == Seed(s).value.files[path].contentSha256)
                then 0 else 1)
  {
    var c := BegunCall(w, s, files, texts, commit);
    assert c.manifest == Assembled(w, s, files, texts, commit);
    if Seed(s).Some? {
      var seed := Seed(s).value;
      AssembledIsMade(w, s, files, texts, commit);
      SameRootIff(w, s.version, c.manifest, seed);
    }
  }

  /**
   * The manifest write is skipped exactly when the cache on disk is believed to have the new root hash already
   * (as the memo records it, or as just loaded) and every file that was read reuses its seed entry.
   */
  lemma WriteIsSkippedIff(w: World, s: State, files: seq<EnumeratedFile>, texts: Texts, commit: string, large: bool, ok: bool,
                          s1: State, s2: State)
    requires s.call.None? && s1 == Apply(w, s, Begin(files, texts, commit)) && s2 == Apply(w, s1, WriteManifest(large, ok))
    ensures s1.call.Some? && s2.call.Some?
    ensures var m := s1.call.value.manifest;
      var disk := if s.disk.single.Some? then s.disk.single else s.disk.sharded;
      var seed := if s.memo.Some? then Some(s.memo.value.manifest)
                  else if disk.Some? && disk.value.engineVersion == s.version then disk else None;
      var believed := if s.memo.Some? then s.memo.value.persistedRootHash
                      else if seed.Some? then Some(seed.value.rootHash) else None;
      var skipped := believed == Some(m.rootHash)
        && AllReusable(w.engines(s.version), if seed.Some? then seed.value.files else map[], files, texts);
      && (s2.call.value.phase.Graphing? <==> skipped || !ok)
      && s2.disk == (if skipped || !ok then s.disk
                     else if large then s.disk.(sharded := Some(m)) else s.disk.(single := Some(m)))
  {
    var c := BegunCall(w, s, files, texts, commit);
    assert s1 == s.(call := Some(c));
    WriteStep(s1, c, large, ok);
    assert s2 == Advance(s1, c, WriteManifest(large, ok));
  }

  lemma WriteStep(s: State, c: Call, large: bool, ok: bool)
    requires s.call == Some(c) && c.phase.Writing?
    ensures var s' := Advance(s, c, WriteManifest(large, ok));
      var skipped := c.persistedRootHash == Some(c.manifest.rootHash) && !c.reparsed;
      && s'.disk == (if skipped || !ok then s.disk
                     else if large then s.disk.(sharded := Some(c.manifest)) else s.disk.(single := Some(c.manifest)))
      && s'.call.Some? && (s'.call.value.phase.Graphing? <==> skipped || !ok)
  {
  }

  lemma SameRootIff(w: World, v: string, m: Manifest, seed: Manifest)
    requires SoundWorld(w) && MadeBy(w, v, m) && MadeBy(w, v, seed)
    ensures m.rootHash == seed.rootHash <==>
      && m.files.Keys == seed.files.Keys
      && forall path :: path in m.files ==> m.files[path].contentSha256 == seed.files[path].contentSha256
  {
    if m.rootHash == seed.rootHash {
      RootHashIdentifiesContents(w.sha, m.files, seed.files);
    }
    if m.files.Keys == seed.files.Keys && forall path :: path in m.files ==> m.files[path].contentSha256 == seed.files[path].contentSha256 {
      SameContentsSameRootHash(w.sha, m.files, seed.files);
    }
  }

  // ----- histories outside the theorem: runs on a workspace of one file

  /** The workspace's file, and an engine version that finds one symbol where the others find none. */
  datatype Small = Small(f: EnumeratedFile, newer: string)

  function SmallExtraction(k: Small, version: string): Extraction {
    Extracted(if version == k.newer then [IndexedSymbol("f", "f", 1, 1, [])] else [], [], [])
  }

  ghost predicate SmallWorld(k: Small, w: World) {
    && SoundWorld(w) && Merkle.Clean(k.f.path)
    && (forall v, path, text :: w.engines(v).extract(path, text) == SmallExtraction(k, v))
    && (forall v, text :: w.engines(v).lines(text) == [text])
    && forall v, name, line :: w.engines(v).wordIn(name, line)
  }

  lemma SmallWorldExists(k: Small, orders: Orders) returns (w: World)
    requires Merkle.Clean(k.f.path)
    ensures SmallWorld(k, w) && w.orders == orders
  {
    HexIsCollisionless();
    w := World(v => Engine(HexOf, (path, text) => SmallExtraction(k, v), (path, text) => "ts", text => [text], (name, line) => true),
               HexOf, orders);
  }

  function SmallEntry(k: Small, w: World, version: string, text: string): IndexedFile {
    Fresh(w.engines(version), k.f, text)
  }

  function SmallFiles(k: Small, w: World, version: string, text: string): Files {
    map[k.f.path := SmallEntry(k, w, version, text)]
  }

  ghost function SmallHash(k: Small, w: World, text: string): string {
    RootHash(w.sha, SmallFiles(k, w, k.newer, text))
  }

  ghost function SmallManifest(k: Small, w: World, version: string, text: string, generation: nat): Manifest {
    Manifest(version, "", "", "", SmallHash(k, w, text), generation, SmallFiles(k, w, version, text))
  }

  lemma SmallEntryIs(k: Small, w: World, version: string, text: string)
    requires SmallWorld(k, w)
    ensures var e := SmallEntry(k, w, version, text);
      && e.path == k.f.path && e.contentSha256 == w.sha(text) && e.outgoingSymbolRefs == []
      && e.symbols == if version == k.newer then [IndexedSymbol("f", "f", 1, 1, [])] else []
    ensures SymbolsValid(w.engines(version), SmallEntry(k, w, version, text), text)
  {
    assert w.engines(version).extract(k.f.path, text) == SmallExtraction(k, version);
    var lines := w.engines(version).lines(text);
    assert lines == [text];
    forall sym | sym in SmallEntry(k, w, version, text).symbols
      ensures FoundNear(w.engines(version), sym, lines)
    {
      assert WindowStart(sym) <= 0 < WindowEnd(sym, |lines|) && w.engines(version).wordIn(sym.name, lines[0]);
    }
  }

  /** The root hash does not see what the engine extracted. */
  lemma SmallRootHash(k: Small, w: World, version: string, text: string)
    requires SmallWorld(k, w)
    ensures RootHash(w.sha, SmallFiles(k, w, version, text)) == SmallHash(k, w, text)
  {
    SmallEntryIs(k, w, version, text);
    SmallEntryIs(k, w, k.newer, text);
    assert HashedContents(SmallFiles(k, w, version, text)) == HashedContents(SmallFiles(k, w, k.newer, text));
  }

  lemma SmallIsMade(k: Small, w: World, version: string, text: string, generation: nat)
    requires SmallWorld(k, w)
    ensures MadeBy(w, version, SmallManifest(k, w, version, text, generation))
  {
    var files := SmallFiles(k, w, version, text);
    assert CleanPaths(files) by {
      SmallEntryIs(k, w, version, text);
    }
    assert ProducedFiles(w.engines(version), files) by {
      assert ExtractedFrom(w.engines(version), SmallEntry(k, w, version, text), text);
    }
    assert RootHash(w.sha, files) == SmallHash(k, w, text) by {
      SmallRootHash(k, w, version, text);
    }
  }

  lemma SmallHashesDiffer(k: Small, w: World, text: string, text': string)
    requires SmallWorld(k, w) && text != text'
    ensures SmallHash(k, w, text) != SmallHash(k, w, text')
  {
    SmallIsMade(k, w, k.newer, text, 0);
    SmallIsMade(k, w, k.newer, text', 0);
    SmallEntryIs(k, w, k.newer, text);
    SmallEntryIs(k, w, k.newer, text');
    assert k.f.path in SmallFiles(k, w, k.newer, text);
    if SmallHash(k, w, text) == SmallHash(k, w, text') {
      RootHashIdentifiesContents(w.sha, SmallFiles(k, w, k.newer, text), SmallFiles(k, w, k.newer, text'));
    }
  }

  /** The generation a build of `text` gets from a seed. */
  ghost function SmallGeneration(k: Small, w: World, s: State, text: string): nat {
    NextGeneration(Seed(s), SmallHash(k, w, text))
  }

  function NextGeneration(seed: Option<Manifest>, rootHash: string): nat {
    if seed.None? then 1 else if seed.value.rootHash == rootHash then seed.value.generation else seed.value.generation + 1
  }

  /** Whatever its seed, a build of the small workspace has the fresh entry. */
  lemma SmallAssembled(k: Small, w: World, s: State, text: string)
    requires SmallWorld(k, w) && Invariant(w, s)
    ensures Assembled(w, s, [k.f], map[k.f.path := text], "")
         == SmallManifest(k, w, s.version, text, SmallGeneration(k, w, s, text))
  {
    var engine := w.engines(s.version);
    var seedFiles := SeedFiles(s);
    SeedIsProduced(w, s);
    OneEntry(engine, seedFiles, k.f, map[k.f.path := text]);
    assert engine.extract(k.f.path, text) == SmallExtraction(k, s.version);
    ReadableEntryIsFreshIff(engine, IncrementalBuild.Lookup(seedFiles, k.f.path), k.f, text);
    SmallRootHash(k, w, s.version, text);
  }

  /** A seed with the same text is reused. */
  lemma SmallReused(k: Small, w: World, s: State, text: string, generation: nat)
    requires SmallWorld(k, w) && Seed(s) == Some(SmallManifest(k, w, s.version, text, generation))
    ensures AllReusable(w.engines(s.version), SeedFiles(s), [k.f], map[k.f.path := text])
  {
    SmallEntryIs(k, w, s.version, text);
    SmallSeedReused(w, s, k.f, text, SmallEntry(k, w, s.version, text));
  }

  lemma SmallSeedReused(w: World, s: State, f: EnumeratedFile, text: string, e: IndexedFile)
    requires Seed(s).Some? && Seed(s).value.files == map[f.path := e]
    requires e.contentSha256 == w.engines(s.version).sha(text) && SymbolsValid(w.engines(s.version), e, text)
    ensures AllReusable(w.engines(s.version), SeedFiles(s), [f], map[f.path := text])
  {
    assert Reusable(w.engines(s.version), SeedFiles(s), map[f.path := text], f.path);
  }

  lemma OneElement(order: seq<string>, p: string)
    requires forall q :: q in order <==> q == p
    requires forall i, j :: 0 <= i < j < |order| ==> order[i] != order[j]
    ensures order == [p]
  {
    assert p in order;
    assert p in order;
    assert order[0] in order && order[|order| - 1] in order;
    assert order[0] == order[|order| - 1];
  }

  lemma SmallGraph(k: Small, w: World, version: string, text: string, generation: nat)
    requires SmallWorld(k, w)
    ensures |GraphOf(w, SmallManifest(k, w, version, text, generation)).files| == if version == k.newer then 1 else 0
  {
    var files := SmallFiles(k, w, version, text);
    var file := SmallEntry(k, w, version, text);
    assert Listing(files) == [file] by {
      OneElement(PathOrder(files.Keys), k.f.path);
      assert Listing(files)[0] == files[k.f.path];
    }
    SmallEntryIs(k, w, version, text);
    OneFileEntry(file, w.orders.strings);
    SortedIsPermutation(FileEntries(Definitions([file]), [file], w.orders.strings), w.orders.files);
  }

  lemma OneFileEntry(file: IndexedFile, order: (string, string) -> bool)
    requires file.outgoingSymbolRefs == []
    ensures |FileEntries(Definitions([file]), [file], order)| == if file.symbols == [] then 0 else 1
  {
    assert [file][..0] == [];
    assert FileImports(Definitions([file]), file) == [];
    assert FileEntries(Definitions([file]), [], order) == [];
    assert Exports(file.symbols) == [] <==> file.symbols == [];
  }

  /** A process that starts on `d` with version `v` and holds nothing in memory. */
  function Restarted(d: Disk, v: string): State {
    State(v, d, None, None)
  }

  lemma RestartedSeed(d: Disk, version: string)
    requires d.single.Some?
    ensures Seed(Restarted(d, version)) == if d.single.value.engineVersion == version then d.single else None
    ensures Belief(Restarted(d, version)) ==
            if d.single.value.engineVersion == version then Some(d.single.value.rootHash) else None
  {
  }

  ghost function SmallDisk(k: Small, w: World, version: string, text: string, generation: nat): Disk {
    var m := SmallManifest(k, w, version, text, generation);
    Disk(Some(m), None, Absent, Some(GraphFile(generation, GraphOf(w, m))), version)
  }

  lemma SmallDiskIsMade(k: Small, w: World, version: string, text: string, generation: nat)
    requires SmallWorld(k, w)
    ensures DiskMade(w, SmallDisk(k, w, version, text, generation))
  {
    SmallIsMade(k, w, version, text, generation);
    var m := SmallManifest(k, w, version, text, generation);
    assert BuiltFrom(w, version, GraphOf(w, m)) by {
      assert MadeBy(w, version, m);
    }
  }

  ghost function SmallComplete(k: Small, w: World, s: State, text: string): State {
    Complete(w, s, [k.f], map[k.f.path := text], "", false)
  }

  /** The first call on an empty disk. */
  lemma SmallFirstCall(k: Small, w: World, version: string, text: string)
    requires SmallWorld(k, w)
    ensures SmallComplete(k, w, EmptyState(version), text).disk == SmallDisk(k, w, version, text, 1)
  {
    SmallAssembled(k, w, EmptyState(version), text);
    CompleteReaches(w, EmptyState(version), [k.f], map[k.f.path := text], "", false);
  }

  /** A call that writes the manifest and then crashes, before the journal. */
  ghost function CrashedCall(w: World, s: State, files: seq<EnumeratedFile>, texts: Texts): State {
    Apply(w, Apply(w, Apply(w, s, Begin(files, texts, "")), WriteManifest(false, true)), Crash)
  }

  lemma CrashedCallReaches(w: World, s: State, files: seq<EnumeratedFile>, texts: Texts)
    requires s.call.None? && Belief(s) != Some(BegunCall(w, s, files, texts, "").manifest.rootHash)
    ensures CrashedCall(w, s, files, texts)
         == Restarted(s.disk.(single := Some(BegunCall(w, s, files, texts, "").manifest)), s.version)
  {
    WrittenThenCrashed(w, s.(call := Some(BegunCall(w, s, files, texts, ""))), BegunCall(w, s, files, texts, ""));
  }

  lemma WrittenThenCrashed(w: World, s: State, c: Call)
    requires s.call == Some(c) && c.phase.Writing? && c.persistedRootHash != Some(c.manifest.rootHash)
    ensures Apply(w, Apply(w, s, WriteManifest(false, true)), Crash)
         == Restarted(s.disk.(single := Some(c.manifest)), s.version)
  {
  }

  ghost function SmallCrash(k: Small, w: World, s: State, text: string): State {
    CrashedCall(w, s, [k.f], map[k.f.path := text])
  }

  lemma SmallCrashReaches(k: Small, w: World, d: Disk, version: string, text: string, generation: nat)
    requires SmallWorld(k, w) && DiskMade(w, d)
    requires d.single.Some? &&
      if d.single.value.engineVersion == version
      then d.single.value.rootHash != SmallHash(k, w, text) && generation == d.single.value.generation + 1
      else generation == 1
    ensures SmallCrash(k, w, Restarted(d, version), text)
         == Restarted(d.(single := Some(SmallManifest(k, w, version, text, generation))), version)
  {
    SmallRestartedCall(k, w, d, version, text, generation);
    RestartedGeneration(d, version, SmallHash(k, w, text));
    SmallHashIs(k, w, version, text, generation);
    CrashedCallReaches(w, Restarted(d, version), [k.f], map[k.f.path := text]);
  }

  lemma SmallRestartedCall(k: Small, w: World, d: Disk, version: string, text: string, generation: nat)
    requires SmallWorld(k, w) && DiskMade(w, d)
    requires d.single.Some? &&
      if d.single.value.engineVersion == version
      then d.single.value.rootHash != SmallHash(k, w, text) && generation == d.single.value.generation + 1
      else generation == 1
    ensures Assembled(w, Restarted(d, version), [k.f], map[k.f.path := text], "") == SmallManifest(k, w, version, text, generation)
  {
    RestartedIsInvariant(w, d, version);
    SmallAssembled(k, w, Restarted(d, version), text);
    RestartedGeneration(d, version, SmallHash(k, w, text));
  }

  lemma SmallHashIs(k: Small, w: World, version: string, text: string, generation: nat)
    ensures SmallManifest(k, w, version, text, generation).rootHash == SmallHash(k, w, text)
  {
  }

  lemma RestartedIsInvariant(w: World, d: Disk, version: string)
    requires DiskMade(w, d)
    ensures Invariant(w, Restarted(d, version))
  {
  }

  lemma RestartedGeneration(d: Disk, version: string, rootHash: string)
    requires d.single.Some?
    ensures NextGeneration(Seed(Restarted(d, version)), rootHash)
         == if d.single.value.engineVersion != version then 1
            else if d.single.value.rootHash == rootHash then d.single.value.generation
            else d.single.value.generation + 1
    ensures Belief(Restarted(d, version)) ==
            if d.single.value.engineVersion == version then Some(d.single.value.rootHash) else None
  {
    RestartedSeed(d, version);
  }

  /** A call that finds the disk cache current and the graph's root hash matching writes nothing. */
  lemma NothingWritten(w: World, s: State, files: seq<EnumeratedFile>, texts: Texts)
    requires s.call.None? && DiskCacheCurrent(BegunCall(w, s, files, texts, ""))
    requires GraphShortcut(s.disk, Assembled(w, s, files, texts, ""))
    ensures Complete(w, s, files, texts, "", false).disk == s.disk
  {
    CompleteReaches(w, s, files, texts, "", false);
  }

  lemma SmallNothingWritten(k: Small, w: World, d: Disk, version: string, text: string, generation: nat)
    requires SmallWorld(k, w) && DiskMade(w, d)
    requires d.single == Some(SmallManifest(k, w, version, text, generation))
    requires d.journal.Absent? && d.graph.Some? && d.graph.value.graph.rootHash == SmallHash(k, w, text)
    ensures SmallComplete(k, w, Restarted(d, version), text).disk == d
  {
    var s := Restarted(d, version);
    var m := SmallManifest(k, w, version, text, generation);
    RestartedSeed(d, version);
    SmallAssembled(k, w, s, text);
    SmallReused(k, w, s, text, generation);
    assert BegunCall(w, s, [k.f], map[k.f.path := text], "") == Call(Writing, m, GraphOf(w, m), Some(m.rootHash), false, false);
    NothingWritten(w, s, [k.f], map[k.f.path := text]);
  }

  lemma SmallSingleMade(k: Small, w: World, d: Disk, version: string, text: string, generation: nat)
    requires SmallWorld(k, w) && DiskMade(w, d)
    ensures DiskMade(w, d.(single := Some(SmallManifest(k, w, version, text, generation))))
  {
    SmallIsMade(k, w, version, text, generation);
  }

  /**
   * Upgrade: a crash between the first manifest rename of a new version and its journal leaves the old
   * version's graph with a matching root hash, and no later call on this content replaces it.
   */
  lemma UpgradeCrashKeepsOldGraph(k: Small, w: World, older: string, text: string)
    requires SmallWorld(k, w) && older != k.newer
    ensures
      var first := SmallComplete(k, w, EmptyState(older), text);
      var crashed := SmallCrash(k, w, Restarted(first.disk, k.newer), text);
      && SmallComplete(k, w, crashed, text).disk == crashed.disk
      && !GraphIsOfDisk(w, crashed.disk)
  {
    SmallFirstCall(k, w, older, text);
    SmallDiskIsMade(k, w, older, text, 1);
    var d := SmallDisk(k, w, older, text, 1);
    SmallCrashReaches(k, w, d, k.newer, text, 1);
    SmallSingleMade(k, w, d, k.newer, text, 1);
    SmallNothingWritten(k, w, d.(single := Some(SmallManifest(k, w, k.newer, text, 1))), k.newer, text, 1);
    SmallGraph(k, w, older, text, 1);
    SmallGraph(k, w, k.newer, text, 1);
  }

  /** The generations recorded in the manifest and in the graph. */
  function Generations(d: Disk): (Option<nat>, Option<nat>) {
    (if d.single.Some? then Some(d.single.value.generation) else None,
     if d.graph.Some? then Some(d.graph.value.generation) else None)
  }

  /**
   * Generation gap: two crashes while the content goes from `a` to `b` and back leave the graph right
   * but two generations behind the manifest, and no later call on this content brings it forward.
   */
  lemma TwoCrashesLeaveGenerationBehind(k: Small, w: World, version: string, a: string, b: string)
    requires SmallWorld(k, w) && a != b
    ensures
      var first := SmallComplete(k, w, EmptyState(version), a);
      var crashed := SmallCrash(k, w, SmallCrash(k, w, Restarted(first.disk, version), b), a);
      && SmallComplete(k, w, crashed, a).disk == crashed.disk
      && GraphIsOfDisk(w, crashed.disk)
      && Generations(crashed.disk) == (Some(3), Some(1))
  {
    SmallFirstCall(k, w, version, a);
    SmallTwoCrashes(k, w, version, a, b);
    var d := SmallDisk(k, w, version, a, 1).(single := Some(SmallManifest(k, w, version, a, 3)));
    SmallDiskIsMade(k, w, version, a, 1);
    SmallSingleMade(k, w, SmallDisk(k, w, version, a, 1), version, a, 3);
    SmallNothingWritten(k, w, d, version, a, 3);
    SmallIsMade(k, w, version, a, 1);
    SmallIsMade(k, w, version, a, 3);
    RootHashDeterminesGraph(w, version, SmallManifest(k, w, version, a, 1), SmallManifest(k, w, version, a, 3));
  }

  lemma SmallTwoCrashes(k: Small, w: World, version: string, a: string, b: string)
    requires SmallWorld(k, w) && a != b
    ensures SmallCrash(k, w, SmallCrash(k, w, Restarted(SmallDisk(k, w, version, a, 1), version), b), a)
         == Restarted(SmallDisk(k, w, version, a, 1).(single := Some(SmallManifest(k, w, version, a, 3))), version)
  {
    SmallHashesDiffer(k, w, a, b);
    SmallDiskIsMade(k, w, version, a, 1);
    var d := SmallDisk(k, w, version, a, 1);
    SmallCrashReaches(k, w, d, version, b, 2);
    SmallSingleMade(k, w, d, version, b, 2);
    SmallCrashReaches(k, w, d.(single := Some(SmallManifest(k, w, version, b, 2))), version, a, 3);
  }

  /** The rest of a call whose scan drops nothing. */
  ghost function Settled(w: World, s: State, overtaken: bool): State {
    Apply(w, Apply(w, s, PublishMemo(overtaken)), ScanRepair({}, false, true, overtaken, Removed))
  }

  lemma SettledReaches(w: World, s: State, c: Call, overtaken: bool)
    requires s.call == Some(c) && c.phase.Publishing?
    ensures Settled(w, s, overtaken)
         == s.(call := None, memo := if overtaken then s.memo else Some(Memo(c.manifest, c.persistedRootHash)))
  {
  }

  /** The whole state after a completed and settled call. */
  lemma CompleteSettles(w: World, s: State, files: seq<EnumeratedFile>, texts: Texts, large: bool, overtaken: bool)
    requires s.call.None?
    ensures var c := BegunCall(w, s, files, texts, "");
      Settled(w, Complete(w, s, files, texts, "", large), overtaken)
      == State(s.version, CompletedDisk(s.version, s.disk, c, large),
               if overtaken then s.memo else Some(Memo(c.manifest, Some(c.manifest.rootHash))), None)
  {
    var c := BegunCall(w, s, files, texts, "");
    CompleteCall(w, s, files, texts, "", large);
    var s' := Complete(w, s, files, texts, "", large);
    SettledReaches(w, s', s'.call.value, overtaken);
  }

  /**
   * Overtaken, then rolled back: a call for `b` writes the disk but, overtaken by an invalidation, leaves
   * the memo believing that the disk holds `a`. When the content returns to `a`, the next completed
   * call skips the manifest write and leaves the graph of `a` beside the manifest of `b`, with another generation.
   */
  lemma OvertakenRollbackSplitsThePair(k: Small, w: World, version: string, a: string, b: string)
    requires SmallWorld(k, w) && a != b
    ensures
      var settled := Settled(w, SmallComplete(k, w, EmptyState(version), a), false);
      var overtaken := Settled(w, SmallComplete(k, w, settled, b), true);
      var after := SmallComplete(k, w, overtaken, a);
      && !BeliefTrue(overtaken)
      && !GraphIsOfDisk(w, after.disk) && !GenerationsAgree(after.disk) && after.disk.journal.Absent?
      && Loaded(after.disk) == Some(SmallManifest(k, w, version, b, 2))
  {
    SmallSettledOnce(k, w, version, a);
    SmallOvertakenOnce(k, w, version, a, b);
    SmallRolledBack(k, w, version, a, b);
  }

  lemma SmallSettledOnce(k: Small, w: World, version: string, a: string)
    requires SmallWorld(k, w)
    ensures Settled(w, SmallComplete(k, w, EmptyState(version), a), false) == SmallSettled(k, w, version, a, a, 1)
  {
    var s := EmptyState(version);
    SmallFirstBegun(k, w, version, a, s);
    CompleteSettles(w, s, [k.f], map[k.f.path := a], false, false);
    SmallWrites(k, w, version, a, s, BegunCall(w, s, [k.f], map[k.f.path := a], ""));
  }

  lemma SmallFirstBegun(k: Small, w: World, version: string, a: string, s: State)
    requires SmallWorld(k, w) && s == EmptyState(version)
    ensures var c := BegunCall(w, s, [k.f], map[k.f.path := a], "");
      c.manifest == SmallManifest(k, w, version, a, 1) && c.graph == GraphOf(w, c.manifest) && c.persistedRootHash == None
  {
    SmallFirstAssembled(k, w, version, a, s);
  }

  lemma SmallFirstAssembled(k: Small, w: World, version: string, a: string, s: State)
    requires SmallWorld(k, w) && s == EmptyState(version)
    ensures Assembled(w, s, [k.f], map[k.f.path := a], "") == SmallManifest(k, w, version, a, 1) && Belief(s) == None
  {
    EmptyStateIsInvariant(w, version);
    SmallAssembled(k, w, s, a);
    assert Seed(s) == None;
  }

  lemma SmallWrites(k: Small, w: World, version: string, a: string, s: State, c: Call)
    requires s == EmptyState(version)
    requires c.manifest == SmallManifest(k, w, version, a, 1) && c.graph == GraphOf(w, c.manifest) && c.persistedRootHash == None
    ensures CompletedDisk(version, s.disk, c, false) == SmallDisk(k, w, version, a, 1)
    ensures SmallSettled(k, w, version, a, a, 1)
         == State(version, CompletedDisk(version, s.disk, c, false), Some(Memo(c.manifest, Some(c.manifest.rootHash))), None)
  {
  }

  lemma SmallOvertakenOnce(k: Small, w: World, version: string, a: string, b: string)
    requires SmallWorld(k, w) && a != b
    ensures Settled(w, SmallComplete(k, w, SmallSettled(k, w, version, a, a, 1), b), true) == SmallSettled(k, w, version, a, b, 2)
  {
    SmallHashesDiffer(k, w, a, b);
    var s := SmallSettled(k, w, version, a, a, 1);
    SmallSettledIsInvariant(k, w, version, a, a);
    SmallSettledSeed(k, w, version, a, a, 1);
    SmallAssembled(k, w, s, b);
    CompleteSettles(w, s, [k.f], map[k.f.path := b], false, true);
    SmallReplaces(k, w, version, a, b, BegunCall(w, s, [k.f], map[k.f.path := b], ""));
  }

  lemma SmallReplaces(k: Small, w: World, version: string, a: string, b: string, c: Call)
    requires c.manifest == SmallManifest(k, w, version, b, 2) && c.graph == GraphOf(w, c.manifest)
    requires !DiskCacheCurrent(c)
    ensures CompletedDisk(version, SmallDisk(k, w, version, a, 1), c, false) == SmallDisk(k, w, version, b, 2)
  {
  }

  lemma SmallSkips(k: Small, w: World, version: string, a: string, b: string, c: Call)
    requires c.manifest == SmallManifest(k, w, version, a, 1) && c.graph == GraphOf(w, c.manifest)
    requires DiskCacheCurrent(c) && SmallHash(k, w, a) != SmallHash(k, w, b)
    ensures var d := CompletedDisk(version, SmallDisk(k, w, version, b, 2), c, false);
      && Loaded(d) == Some(SmallManifest(k, w, version, b, 2)) && !GraphIsOfDisk(w, d)
      && !GenerationsAgree(d) && d.journal.Absent?
  {
  }

  lemma SmallSettledSeed(k: Small, w: World, version: string, a: string, text: string, generation: nat)
    ensures var s := SmallSettled(k, w, version, a, text, generation);
      && Seed(s) == Some(SmallManifest(k, w, version, a, 1)) && Belief(s) == Some(SmallHash(k, w, a))
      && (SmallHash(k, w, a) != SmallHash(k, w, text) ==> !BeliefTrue(s))
  {
    SmallSettledSeeds(SmallSettled(k, w, version, a, text, generation), SmallManifest(k, w, version, a, 1),
                      SmallManifest(k, w, version, text, generation));
  }

  lemma SmallSettledSeeds(s: State, mine: Manifest, loaded: Manifest)
    requires s.memo == Some(Memo(mine, Some(mine.rootHash))) && Loaded(s.disk) == Some(loaded)
    ensures Seed(s) == Some(mine) && Belief(s) == Some(mine.rootHash)
    ensures mine.rootHash != loaded.rootHash ==> !BeliefTrue(s)
  {
  }

  /** The process remembers text `a`; the disk holds text `text`. */
  ghost function SmallSettled(k: Small, w: World, version: string, a: string, text: string, generation: nat): State {
    var mA := SmallManifest(k, w, version, a, 1);
    State(version, SmallDisk(k, w, version, text, generation), Some(Memo(mA, Some(mA.rootHash))), None)
  }

  lemma SmallSettledIsInvariant(k: Small, w: World, version: string, a: string, text: string)
    requires SmallWorld(k, w)
    ensures forall generation: nat :: Invariant(w, SmallSettled(k, w, version, a, text, generation))
  {
    forall generation: nat
      ensures Invariant(w, SmallSettled(k, w, version, a, text, generation))
    {
      SmallDiskIsMade(k, w, version, text, generation);
      SmallIsMade(k, w, version, a, 1);
      var mA := SmallManifest(k, w, version, a, 1);
      assert MemoMade(w, version, mA) by {
        assert MadeBy(w, version, mA);
      }
    }
  }

  lemma SmallRolledBack(k: Small, w: World, version: string, a: string, b: string)
    requires SmallWorld(k, w) && a != b
    ensures var s := SmallSettled(k, w, version, a, b, 2);
      && !BeliefTrue(s)
      && !GraphIsOfDisk(w, SmallComplete(k, w, s, a).disk)
      && !GenerationsAgree(SmallComplete(k, w, s, a).disk) && SmallComplete(k, w, s, a).disk.journal.Absent?
      && Loaded(SmallComplete(k, w, s, a).disk) == Some(SmallManifest(k, w, version, b, 2))
  {
    SmallHashesDiffer(k, w, a, b);
    SmallSettledIsInvariant(k, w, version, a, b);
    var s := SmallSettled(k, w, version, a, b, 2);
    SmallSettledSeed(k, w, version, a, b, 2);
    SmallAssembled(k, w, s, a);
    SmallReused(k, w, s, a, 1);
    var c := BegunCall(w, s, [k.f], map[k.f.path := a], "");
    assert c.manifest == SmallManifest(k, w, version, a, 1) && c.persistedRootHash == Some(c.manifest.rootHash) && !c.reparsed;
    CompleteReaches(w, s, [k.f], map[k.f.path := a], "", false);
    SmallSkips(k, w, version, a, b, c);
  }
}
