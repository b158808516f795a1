/**
 * Writers, removals and readers of the sharded cache, interleaved one file operation at a time, with
 * failures and crashes anywhere. What a manifest's pieces are is a parameter; `ShardedCache` supplies it.
 */
module ShardedProtocol {
  import opened Wrappers
  import opened SourceIndex
  import opened IncrementalBuild
  import opened ShardedCache

  datatype Disk = Disk(head: Option<Head>, pieces: map<string, Content>)

  /** The piece names of each manifest, what a piece of some name holds, and the manifests writers are handed. */
  datatype Catalogue = Catalogue(
    names: Indexed -> seq<string>,
    contentOf: string -> Content,
    made: Indexed -> bool,
    bytes: Content -> nat,
    stored: Content -> nat)

  // ----- heads

  function Sized(c: Catalogue, name: string): ShardPiece {
    ShardPiece(name, c.bytes(c.contentOf(name)))
  }

  function SizedAll(c: Catalogue, names: seq<string>): (pieces: seq<ShardPiece>)
    ensures |pieces| == |names| && forall i :: 0 <= i < |names| ==> pieces[i] == Sized(c, names[i])
  {
    seq(|names|, i requires 0 <= i < |names| => Sized(c, names[i]))
  }

  function TotalBytes(pieces: seq<ShardPiece>): nat {
    if pieces == [] then 0 else TotalBytes(pieces[..|pieces| - 1]) + pieces[|pieces| - 1].bytes
  }

  /** The head of `x` when its ensured pieces are `done`, the directories last. */
  function HeadFrom(x: Indexed, done: seq<ShardPiece>): Head
    requires done != []
  {
    var m := x.manifest;
    Head(m.engineVersion, m.repoRootRealpath, m.ignoreHash, m.builtFromCommit, m.rootHash, m.generation,
         |m.files|, done[|done| - 1], done[..|done| - 1])
  }

  // ----- reading

  /** What reading and decoding a piece gives; `None` when it throws. */
  function ReadPiece(bytes: Content -> nat, stored: Content -> nat, d: Disk, piece: ShardPiece): Option<Content> {
    if piece.name !in d.pieces then None
    else
      var content := d.pieces[piece.name];
      if stored(content) > MAX_SHARD_BYTES || bytes(content) != piece.bytes then None else Some(content)
  }

  /** The `files` of the read shards together; `None` when one holds no files or a mislabelled entry. */
  function Merged(pieces: seq<Content>): Option<Files> {
    if pieces == [] then Some(map[])
    else
      var before, last := Merged(pieces[..|pieces| - 1]), pieces[|pieces| - 1];
      if before.Some? && last.FilesPiece? && forall path :: path in last.files ==> last.files[path].path == path
      then Some(before.value + last.files)
      else None
  }

  function AfterShards(head: Head, pieces: seq<Content>): Option<Files> {
    var files := Merged(pieces);
    if files.Some? && |files.value| == head.fileCount then files else None
  }

  function Assembled(head: Head, files: Files, directories: Content): Option<Indexed> {
    if directories.FilesPiece? then None
    else
      Some(Indexed(
        Manifest(head.engineVersion, head.repoRootRealpath, head.ignoreHash, head.builtFromCommit, head.rootHash,
                 head.generation, files),
        directories.directories))
  }

  // ----- processes

  datatype Process =
    | Ensuring(x: Indexed, known: map<string, nat>, done: seq<ShardPiece>, missing: bool)
    | RemovingHead
    | Listing(keep: set<string>)
    | Unlinking(doomed: set<string>)
    | ReadingShards(start: nat, head: Head, next: nat, inFlight: set<nat>, got: map<nat, Content>)
    | ReadingDirectories(start: nat, head: Head, files: Files)
    | Loaded(start: nat, result: Option<Indexed>)

  /** `published` lists the manifests whose head was renamed into place, in order. */
  datatype State = State(disk: Disk, published: seq<Indexed>, processes: map<nat, Process>)

  datatype Step =
    | BeginWrite(id: nat, x: Indexed)
    | BeginRemoval(id: nat)
    | BeginLoad(id: nat)
    | Advance(id: nat)
    | Unlink(id: nat, name: string)
    | ClaimShard(id: nat)
    | ReadShard(id: nat, index: nat)
    | Fail(id: nat)

  function KnownPieces(head: Option<Head>): map<string, nat> {
    if head.None? then map[] else KnownSizes(head.value.shards + [head.value.directories])
  }

  function KnownSizes(pieces: seq<ShardPiece>): map<string, nat> {
    if pieces == [] then map[]
    else KnownSizes(pieces[..|pieces| - 1])[pieces[|pieces| - 1].name := pieces[|pieces| - 1].bytes]
  }

  function With(s: State, id: nat, p: Process): State {
    s.(processes := s.processes[id := p])
  }

  function Ended(s: State, id: nat): State {
    s.(processes := s.processes - {id})
  }

  /** A piece is ensured: the writer goes on unless the manifest has grown too large. */
  function Counted(s: State, id: nat, p: Process, piece: ShardPiece): State
    requires p.Ensuring?
  {
    var done := p.done + [piece];
    if TotalBytes(done) > MAX_SHARDED_MANIFEST_BYTES then Ended(s, id) else With(s, id, p.(done := done, missing := false))
  }

  function AdvanceWriter(c: Catalogue, s: State, id: nat, p: Process): State
    requires p.Ensuring?
  {
    var names := c.names(p.x);
    if |p.done| >= |names| then
      if p.done == [] then s
      else
        var keep := set i | 0 <= i < |p.done| :: p.done[i].name;
        With(s.(disk := s.disk.(head := Some(HeadFrom(p.x, p.done))), published := s.published + [p.x]), id, Listing(keep))
    else
      var name := names[|p.done|];
      if !p.missing && name in p.known then
        if name in s.disk.pieces then Counted(s, id, p, ShardPiece(name, p.known[name]))
        else With(s, id, p.(missing := true))
      else
        var content := c.contentOf(name);
        if c.bytes(content) > MAX_SHARD_BYTES then Ended(s, id)
        else Counted(s.(disk := s.disk.(pieces := s.disk.pieces[name := content])), id, p, ShardPiece(name, c.bytes(content)))
  }

  function InOrder(got: map<nat, Content>, count: nat): seq<Content>
    requires forall i :: 0 <= i < count ==> i in got
  {
    seq(count, i requires 0 <= i < count => got[i])
  }

  function AdvanceReader(c: Catalogue, s: State, id: nat, p: Process): State
    requires p.ReadingShards? || p.ReadingDirectories?
  {
    if p.ReadingShards? then
      var count := |p.head.shards|;
      if forall i :: 0 <= i < count ==> i in p.got then
        var files := AfterShards(p.head, InOrder(p.got, count));
        if files.Some? then With(s, id, ReadingDirectories(p.start, p.head, files.value)) else With(s, id, Loaded(p.start, None))
      else s
    else
      var directories := ReadPiece(c.bytes, c.stored, s.disk, p.head.directories);
      With(s, id, Loaded(p.start, if directories.None? then None else Assembled(p.head, p.files, directories.value)))
  }

  function AdvanceProcess(c: Catalogue, s: State, id: nat, p: Process): State {
    match p
    case Ensuring(_, _, _, _) => AdvanceWriter(c, s, id, p)
    case RemovingHead => With(s.(disk := s.disk.(head := None)), id, Listing({}))
    case Listing(keep) => With(s, id, Unlinking(s.disk.pieces.Keys - keep))
    case Unlinking(doomed) => if doomed == {} then Ended(s, id) else s
    case Loaded(_, _) => s
    case _ => AdvanceReader(c, s, id, p)
  }

  function Begun(s: State): Process {
    if s.disk.head.None? || TotalBytes(s.disk.head.value.shards + [s.disk.head.value.directories]) > MAX_SHARDED_MANIFEST_BYTES
    then Loaded(|s.published|, None)
    else ReadingShards(|s.published|, s.disk.head.value, 0, {}, map[])
  }

  /** `mapLimit`'s workers share `next`; at most `READ_CONCURRENCY` reads are in flight and they end in any order. */
  function Apply(c: Catalogue, s: State, step: Step): State {
    if step.BeginWrite? || step.BeginRemoval? || step.BeginLoad? then
      if step.id in s.processes then s
      else
        match step
        case BeginWrite(id, x) => With(s, id, Ensuring(x, KnownPieces(s.disk.head), [], false))
        case BeginRemoval(id) => With(s, id, RemovingHead)
        case _ => With(s, step.id, Begun(s))
    else if step.id !in s.processes then s
    else
      var p := s.processes[step.id];
      match step
      case Unlink(id, name) =>
        if p.Unlinking? && name in p.doomed
        then With(s.(disk := s.disk.(pieces := s.disk.pieces - {name})), id, Unlinking(p.doomed - {name}))
        else s
      case ClaimShard(id) =>
        if p.ReadingShards? && p.next < |p.head.shards| && |p.inFlight| < READ_CONCURRENCY
        then With(s, id, p.(next := p.next + 1, inFlight := p.inFlight + {p.next}))
        else s
      case ReadShard(id, index) =>
        if p.ReadingShards? && index in p.inFlight && index < |p.head.shards| then
          var content := ReadPiece(c.bytes, c.stored, s.disk, p.head.shards[index]);
          if content.None? then With(s, id, Loaded(p.start, None))
          else With(s, id, p.(inFlight := p.inFlight - {index}, got := p.got[index := content.value]))
        else s
      case Fail(id) => Ended(s, id)
      case _ => AdvanceProcess(c, s, step.id, p)
  }

  ghost function Run(c: Catalogue, s: State, steps: seq<Step>): State {
    if steps == [] then s else Apply(c, Run(c, s, steps[..|steps| - 1]), steps[|steps| - 1])
  }

  const EMPTY := State(Disk(None, map[]), [], map[])

  // ----- what every run keeps

  /** The names of a manifest's pieces read back as that manifest. */
  ghost predicate Complete(c: Catalogue, x: Indexed) {
    var names := c.names(x);
    && names != []
    && Merged(Contents(c, names[..|names| - 1])) == Some(x.manifest.files)
    && c.contentOf(names[|names| - 1]) == DirectoriesPiece(x.directories)
  }

  function Contents(c: Catalogue, names: seq<string>): (contents: seq<Content>)
    ensures |contents| == |names| && forall i :: 0 <= i < |names| ==> contents[i] == c.contentOf(names[i])
  {
    seq(|names|, i requires 0 <= i < |names| => c.contentOf(names[i]))
  }

  ghost predicate SoundCatalogue(c: Catalogue) {
    forall x :: c.made(x) ==> Complete(c, x)
  }

  ghost predicate DiskRight(c: Catalogue, d: Disk) {
    forall name :: name in d.pieces ==> d.pieces[name] == c.contentOf(name)
  }

  ghost predicate KnownRight(c: Catalogue, known: map<string, nat>) {
    forall name :: name in known ==> known[name] == c.bytes(c.contentOf(name))
  }

  ghost predicate IsHeadOf(c: Catalogue, head: Head, x: Indexed) {
    c.made(x) && c.names(x) != [] && head == HeadFrom(x, SizedAll(c, c.names(x)))
  }

  ghost predicate StartedAt(c: Catalogue, published: seq<Indexed>, start: nat, head: Head) {
    0 < start <= |published| && IsHeadOf(c, head, published[start - 1])
  }

  ghost predicate ProcessRight(c: Catalogue, published: seq<Indexed>, p: Process) {
    match p
    case Ensuring(x, known, done, _) =>
      && c.made(x) && KnownRight(c, known) && |done| <= |c.names(x)| && done == SizedAll(c, c.names(x)[..|done|])
    case ReadingShards(start, head, _, _, got) =>
      && StartedAt(c, published, start, head)
      && forall i :: i in got ==> 0 <= i < |head.shards| && got[i] == c.contentOf(head.shards[i].name)
    case ReadingDirectories(start, head, files) =>
      StartedAt(c, published, start, head) && files == published[start - 1].manifest.files
    case Loaded(start, result) =>
      result.Some? ==> 0 < start <= |published| && result.value == published[start - 1]
    case _ => true
  }

  ghost predicate Invariant(c: Catalogue, s: State) {
    && DiskRight(c, s.disk)
    && (forall x :: x in s.published ==> c.made(x))
    && (s.disk.head.Some? ==> StartedAt(c, s.published, |s.published|, s.disk.head.value))
    && forall id :: id in s.processes ==> ProcessRight(c, s.published, s.processes[id])
  }

  lemma ProcessStays(c: Catalogue, published: seq<Indexed>, x: Indexed, p: Process)
    requires ProcessRight(c, published, p)
    ensures ProcessRight(c, published + [x], p)
  {
  }

  /** One process changes, and perhaps the pieces on disk. */
  lemma WithKeepsInvariant(c: Catalogue, s: State, id: nat, p: Process, pieces: map<string, Content>)
    requires Invariant(c, s) && ProcessRight(c, s.published, p) && DiskRight(c, s.disk.(pieces := pieces))
    ensures Invariant(c, With(s.(disk := s.disk.(pieces := pieces)), id, p))
  {
  }

  lemma EndedKeepsInvariant(c: Catalogue, s: State, id: nat)
    requires Invariant(c, s)
    ensures Invariant(c, Ended(s, id))
  {
  }

  lemma PublishKeepsInvariant(c: Catalogue, s: State, id: nat, p: Process, keep: set<string>)
    requires Invariant(c, s) && p.Ensuring? && ProcessRight(c, s.published, p) && p.done != [] && |p.done| >= |c.names(p.x)|
    ensures Invariant(c, With(s.(disk := s.disk.(head := Some(HeadFrom(p.x, p.done))), published := s.published + [p.x]), id, Listing(keep)))
  {
    assert c.names(p.x)[..|p.done|] == c.names(p.x);
    var published := s.published + [p.x];
    assert StartedAt(c, published, |published|, HeadFrom(p.x, p.done));
    forall i | i in s.processes
      ensures ProcessRight(c, published, s.processes[i])
    {
      ProcessStays(c, s.published, p.x, s.processes[i]);
    }
  }

  lemma CountedKeepsInvariant(c: Catalogue, s: State, id: nat, p: Process, pieces: map<string, Content>, piece: ShardPiece)
    requires Invariant(c, s) && p.Ensuring? && ProcessRight(c, s.published, p) && DiskRight(c, s.disk.(pieces := pieces))
    requires |p.done| < |c.names(p.x)| && piece == Sized(c, c.names(p.x)[|p.done|])
    ensures Invariant(c, Counted(s.(disk := s.disk.(pieces := pieces)), id, p, piece))
  {
    var done := p.done + [piece];
    assert done == SizedAll(c, c.names(p.x)[..|done|]);
    WithKeepsInvariant(c, s, id, p.(done := done, missing := false), pieces);
    WithKeepsInvariant(c, s, id, p, pieces);
    EndedKeepsInvariant(c, With(s.(disk := s.disk.(pieces := pieces)), id, p), id);
    assert Ended(With(s.(disk := s.disk.(pieces := pieces)), id, p), id) == Ended(s.(disk := s.disk.(pieces := pieces)), id);
  }

  lemma AdvanceWriterKeepsInvariant(c: Catalogue, s: State, id: nat, p: Process)
    requires Invariant(c, s) && p.Ensuring? && ProcessRight(c, s.published, p)
    ensures Invariant(c, AdvanceWriter(c, s, id, p))
  {
    var names := c.names(p.x);
    if |p.done| >= |names| {
      if p.done != [] {
        PublishKeepsInvariant(c, s, id, p, set i | 0 <= i < |p.done| :: p.done[i].name);
      }
    } else {
      var name := names[|p.done|];
      if !p.missing && name in p.known {
        if name in s.disk.pieces {
          CountedKeepsInvariant(c, s, id, p, s.disk.pieces, Sized(c, name));
        } else {
          WithKeepsInvariant(c, s, id, p.(missing := true), s.disk.pieces);
        }
      } else if c.bytes(c.contentOf(name)) > MAX_SHARD_BYTES {
        EndedKeepsInvariant(c, s, id);
      } else {
        CountedKeepsInvariant(c, s, id, p, s.disk.pieces[name := c.contentOf(name)], Sized(c, name));
      }
    }
  }

  lemma StartedHead(c: Catalogue, published: seq<Indexed>, start: nat, head: Head)
    requires SoundCatalogue(c) && StartedAt(c, published, start, head)
    ensures var x := published[start - 1]; var names := c.names(x);
      && Complete(c, x) && |head.shards| == |names| - 1
      && head.directories == Sized(c, names[|names| - 1])
      && forall i :: 0 <= i < |head.shards| ==> head.shards[i] == Sized(c, names[i])
  {
  }

  /** All shards read: together they are the manifest's files. */
  lemma ShardsAreFiles(c: Catalogue, published: seq<Indexed>, p: Process)
    requires SoundCatalogue(c) && ProcessRight(c, published, p) && p.ReadingShards?
    requires forall i :: 0 <= i < |p.head.shards| ==> i in p.got
    ensures var files := AfterShards(p.head, InOrder(p.got, |p.head.shards|));
      files.Some? ==> files.value == published[p.start - 1].manifest.files
  {
    StartedHead(c, published, p.start, p.head);
    var names := c.names(published[p.start - 1]);
    assert InOrder(p.got, |p.head.shards|) == Contents(c, names[..|p.head.shards|]);
  }

  lemma DirectoriesComplete(c: Catalogue, published: seq<Indexed>, p: Process, d: Disk)
    requires SoundCatalogue(c) && ProcessRight(c, published, p) && p.ReadingDirectories? && DiskRight(c, d)
    ensures var directories := ReadPiece(c.bytes, c.stored, d, p.head.directories);
      directories.Some? ==> Assembled(p.head, p.files, directories.value) == Some(published[p.start - 1])
  {
    StartedHead(c, published, p.start, p.head);
  }

  lemma AdvanceReaderKeepsInvariant(c: Catalogue, s: State, id: nat, p: Process)
    requires SoundCatalogue(c) && Invariant(c, s) && ProcessRight(c, s.published, p)
    requires p.ReadingShards? || p.ReadingDirectories?
    ensures Invariant(c, AdvanceReader(c, s, id, p))
  {
    var loaded := Loaded(p.start, None);
    if p.ReadingShards? {
      if forall i :: 0 <= i < |p.head.shards| ==> i in p.got {
        ShardsAreFiles(c, s.published, p);
        var files := AfterShards(p.head, InOrder(p.got, |p.head.shards|));
        WithKeepsInvariant(c, s, id, if files.Some? then ReadingDirectories(p.start, p.head, files.value) else loaded, s.disk.pieces);
      }
    } else {
      DirectoriesComplete(c, s.published, p, s.disk);
      var directories := ReadPiece(c.bytes, c.stored, s.disk, p.head.directories);
      var result := if directories.None? then None else Assembled(p.head, p.files, directories.value);
      WithKeepsInvariant(c, s, id, loaded.(result := result), s.disk.pieces);
    }
  }

  lemma {:induction false} KnownSizesRight(c: Catalogue, pieces: seq<ShardPiece>)
    requires forall i :: 0 <= i < |pieces| ==> pieces[i].bytes == c.bytes(c.contentOf(pieces[i].name))
    ensures KnownRight(c, KnownSizes(pieces))
  {
    if pieces != [] {
      KnownSizesRight(c, pieces[..|pieces| - 1]);
    }
  }

  lemma KnownPiecesRight(c: Catalogue, s: State)
    requires SoundCatalogue(c) && Invariant(c, s)
    ensures KnownRight(c, KnownPieces(s.disk.head))
  {
    if s.disk.head.Some? {
      StartedHead(c, s.published, |s.published|, s.disk.head.value);
      KnownSizesRight(c, s.disk.head.value.shards + [s.disk.head.value.directories]);
    }
  }

  lemma BeginKeepsInvariant(c: Catalogue, s: State, step: Step)
    requires SoundCatalogue(c) && Invariant(c, s) && (step.BeginWrite? || step.BeginRemoval? || step.BeginLoad?)
    requires step.BeginWrite? ==> c.made(step.x)
    ensures Invariant(c, Apply(c, s, step))
  {
    if step.BeginWrite? {
      KnownPiecesRight(c, s);
      WithKeepsInvariant(c, s, step.id, Ensuring(step.x, KnownPieces(s.disk.head), [], false), s.disk.pieces);
    } else if step.BeginRemoval? {
      WithKeepsInvariant(c, s, step.id, RemovingHead, s.disk.pieces);
    } else {
      WithKeepsInvariant(c, s, step.id, Begun(s), s.disk.pieces);
    }
  }

  lemma RemovalKeepsInvariant(c: Catalogue, s: State, id: nat)
    requires Invariant(c, s)
    ensures Invariant(c, With(s.(disk := s.disk.(head := None)), id, Listing({})))
  {
  }

  lemma AdvanceProcessKeepsInvariant(c: Catalogue, s: State, id: nat, p: Process)
    requires SoundCatalogue(c) && Invariant(c, s) && ProcessRight(c, s.published, p)
    ensures Invariant(c, AdvanceProcess(c, s, id, p))
  {
    match p
    case Ensuring(_, _, _, _) => AdvanceWriterKeepsInvariant(c, s, id, p);
    case RemovingHead => RemovalKeepsInvariant(c, s, id);
    case Listing(keep) => WithKeepsInvariant(c, s, id, Unlinking(s.disk.pieces.Keys - keep), s.disk.pieces);
    case Unlinking(doomed) => EndedKeepsInvariant(c, s, id);
    case Loaded(_, _) =>
    case _ => AdvanceReaderKeepsInvariant(c, s, id, p);
  }

  lemma ReadShardKeepsInvariant(c: Catalogue, s: State, id: nat, index: nat)
    requires Invariant(c, s) && id in s.processes
    ensures Invariant(c, Apply(c, s, ReadShard(id, index)))
  {
    var p := s.processes[id];
    if p.ReadingShards? && index in p.inFlight && index < |p.head.shards| {
      var content := ReadPiece(c.bytes, c.stored, s.disk, p.head.shards[index]);
      if content.None? {
        WithKeepsInvariant(c, s, id, Loaded(p.start, None), s.disk.pieces);
      } else {
        WithKeepsInvariant(c, s, id, p.(inFlight := p.inFlight - {index}, got := p.got[index := content.value]), s.disk.pieces);
      }
    }
  }

  lemma StepKeepsInvariant(c: Catalogue, s: State, step: Step)
    requires SoundCatalogue(c) && Invariant(c, s) && (step.BeginWrite? ==> c.made(step.x))
    ensures Invariant(c, Apply(c, s, step))
  {
    if step.BeginWrite? || step.BeginRemoval? || step.BeginLoad? {
      BeginKeepsInvariant(c, s, step);
    } else if step.id in s.processes {
      var p := s.processes[step.id];
      match step
      case Unlink(id, name) =>
        if p.Unlinking? && name in p.doomed {
          WithKeepsInvariant(c, s, id, Unlinking(p.doomed - {name}), s.disk.pieces - {name});
        }
      case ClaimShard(id) =>
        if p.ReadingShards? {
          WithKeepsInvariant(c, s, id, p.(next := p.next + 1, inFlight := p.inFlight + {p.next}), s.disk.pieces);
        }
      case ReadShard(id, index) => ReadShardKeepsInvariant(c, s, id, index);
      case Fail(id) => EndedKeepsInvariant(c, s, id);
      case _ => AdvanceProcessKeepsInvariant(c, s, step.id, p);
    }
  }

  lemma {:induction false} RunKeepsInvariant(c: Catalogue, s: State, steps: seq<Step>)
    requires SoundCatalogue(c) && Invariant(c, s)
    requires forall step :: step in steps && step.BeginWrite? ==> c.made(step.x)
    ensures Invariant(c, Run(c, s, steps))
  {
    if steps != [] {
      var init := steps[..|steps| - 1];
      assert steps == init + [steps[|steps| - 1]];
      RunKeepsInvariant(c, s, init);
      StepKeepsInvariant(c, Run(c, s, init), steps[|steps| - 1]);
    }
  }

  /**
   * Whatever writers, removals, readers and crashes do, a load returns nothing or exactly the manifest
   * whose head was in place when the load read it: never a mixture of two manifests.
   */
  lemma LoadIsNeverAMixture(c: Catalogue, steps: seq<Step>, id: nat)
    requires SoundCatalogue(c) && forall step :: step in steps && step.BeginWrite? ==> c.made(step.x)
    requires var s := Run(c, EMPTY, steps); id in s.processes && s.processes[id].Loaded? && s.processes[id].result.Some?
    ensures var s := Run(c, EMPTY, steps); var p := s.processes[id];
      && 0 < p.start <= |s.published| && p.result.value == s.published[p.start - 1]
      && c.made(p.result.value)
  {
    RunKeepsInvariant(c, EMPTY, steps);
  }

  // ----- a head whose piece is gone

  lemma {:induction false} RunInTwo(c: Catalogue, s: State, first: seq<Step>, second: seq<Step>)
    ensures Run(c, s, first + second) == Run(c, Run(c, s, first), second)
    decreases |second|
  {
    if second == [] {
      assert first + second == first;
    } else {
      var init, last := second[..|second| - 1], second[|second| - 1];
      assert (first + second)[..|first + second| - 1] == first + init;
      RunInTwo(c, s, first, init);
    }
  }

  lemma RunTwo(c: Catalogue, s: State, one: Step, two: Step)
    ensures Run(c, s, [one, two]) == Apply(c, Apply(c, s, one), two)
  {
    assert [one, two][..1] == [one] && [one][..0] == [];
    assert Run(c, s, [one]) == Apply(c, s, one);
  }

  lemma RunThree(c: Catalogue, s: State, one: Step, two: Step, three: Step)
    ensures Run(c, s, [one, two, three]) == Apply(c, Apply(c, Apply(c, s, one), two), three)
  {
    RunTwo(c, s, one, two);
    assert [one, two, three][..2] == [one, two];
  }

  /** A manifest of one piece, small enough to write and read. */
  ghost predicate IsSmall(c: Catalogue, x: Indexed, name: string) {
    c.made(x) && c.names(x) == [name] && c.bytes(c.contentOf(name)) <= MAX_SHARD_BYTES
  }

  function PieceOf(c: Catalogue, name: string): ShardPiece {
    ShardPiece(name, c.bytes(c.contentOf(name)))
  }

  /** The writer of `x` has put its head in place and is to list the pieces next. */
  function OneWriter(c: Catalogue, x: Indexed, a: string): State {
    State(Disk(Some(HeadFrom(x, [PieceOf(c, a)])), map[a := c.contentOf(a)]), [x], map[0 := Listing({a})])
  }

  /** And the writer of `y` has ensured its piece. */
  function TwoWriters(c: Catalogue, x: Indexed, y: Indexed, a: string, b: string): State {
    State(Disk(Some(HeadFrom(x, [PieceOf(c, a)])), map[a := c.contentOf(a), b := c.contentOf(b)]), [x],
          map[0 := Listing({a}), 1 := Ensuring(y, map[a := PieceOf(c, a).bytes], [PieceOf(c, b)], false)])
  }

  lemma SmallTotal(piece: ShardPiece)
    requires piece.bytes <= MAX_SHARD_BYTES
    ensures TotalBytes([piece]) <= MAX_SHARDED_MANIFEST_BYTES && KnownSizes([] + [piece]) == map[piece.name := piece.bytes]
  {
    assert [piece][..0] == [] && [] + [piece] == [piece];
  }

  lemma OneWriterPublishes(c: Catalogue, x: Indexed, a: string)
    requires IsSmall(c, x, a)
    ensures Run(c, EMPTY, [BeginWrite(0, x), Advance(0), Advance(0)]) == OneWriter(c, x, a)
  {
    SmallTotal(PieceOf(c, a));
    RunThree(c, EMPTY, BeginWrite(0, x), Advance(0), Advance(0));
    assert [] + [PieceOf(c, a)] == [PieceOf(c, a)];
    assert (set i | 0 <= i < |[PieceOf(c, a)]| :: [PieceOf(c, a)][i].name) == {a};
  }

  lemma SecondWriterJoins(c: Catalogue, x: Indexed, y: Indexed, a: string, b: string)
    requires IsSmall(c, x, a) && IsSmall(c, y, b) && a != b
    ensures Run(c, OneWriter(c, x, a), [BeginWrite(1, y), Advance(1)]) == TwoWriters(c, x, y, a, b)
  {
    SmallTotal(PieceOf(c, a));
    SmallTotal(PieceOf(c, b));
    var s := OneWriter(c, x, a);
    assert s.disk.head.value.shards == [] && s.disk.head.value.directories == PieceOf(c, a);
    assert KnownPieces(s.disk.head) == map[a := PieceOf(c, a).bytes];
    assert [] + [PieceOf(c, b)] == [PieceOf(c, b)];
    RunTwo(c, s, BeginWrite(1, y), Advance(1));
  }

  /**
   * The reason for "or nothing": the first writer lists the second one's piece as not its own, the second
   * publishes its head, and the first unlinks the piece. A load then finds the published head, and fails.
   */
  lemma PublishedHeadLosesPiece(c: Catalogue, x: Indexed, y: Indexed, a: string, b: string) returns (steps: seq<Step>)
    requires IsSmall(c, x, a) && IsSmall(c, y, b) && a != b && y.manifest.files == map[]
    ensures var s := Run(c, EMPTY, steps);
      && s.published == [x, y] && b !in s.disk.pieces
      && s.disk.head == Some(HeadFrom(y, [PieceOf(c, b)]))
      && 2 in s.processes && s.processes[2] == Loaded(2, None)
    ensures Smooth(steps)
  {
    var one := [BeginWrite(0, x), Advance(0), Advance(0)];
    var two := [BeginWrite(1, y), Advance(1)];
    var lose := [Advance(0), Advance(1), Unlink(0, b)];
    var load := [BeginLoad(2), Advance(2), Advance(2)];
    steps := one + two + lose + load;
    RunInFour(c, EMPTY, one, two, lose, load);
    OneWriterPublishes(c, x, a);
    SecondWriterJoins(c, x, y, a, b);
    PieceThenLoad(c, x, y, a, b, lose, load);
    SmoothParts(one, two);
    SmoothParts(one + two, lose);
    SmoothParts(one + two + lose, load);
  }

  /** No write fails, no process crashes and nobody removes the cache. */
  predicate Smooth(steps: seq<Step>) {
    forall step :: step in steps ==> !step.Fail? && !step.BeginRemoval?
  }

  lemma SmoothParts(first: seq<Step>, second: seq<Step>)
    requires Smooth(first) && Smooth(second)
    ensures Smooth(first + second)
  {
  }

  lemma RunInFour(c: Catalogue, s: State, one: seq<Step>, two: seq<Step>, three: seq<Step>, four: seq<Step>)
    ensures Run(c, s, one + two + three + four) == Run(c, Run(c, Run(c, Run(c, s, one), two), three), four)
  {
    RunInTwo(c, s, one, two);
    RunInTwo(c, s, one + two, three);
    RunInTwo(c, s, one + two + three, four);
  }

  lemma PieceThenLoad(c: Catalogue, x: Indexed, y: Indexed, a: string, b: string, lose: seq<Step>, load: seq<Step>)
    requires IsSmall(c, x, a) && IsSmall(c, y, b) && a != b && y.manifest.files == map[]
    requires lose == [Advance(0), Advance(1), Unlink(0, b)] && load == [BeginLoad(2), Advance(2), Advance(2)]
    ensures var s := Run(c, Run(c, TwoWriters(c, x, y, a, b), lose), load);
      && s.published == [x, y] && b !in s.disk.pieces
      && s.disk.head == Some(HeadFrom(y, [PieceOf(c, b)]))
      && 2 in s.processes && s.processes[2] == Loaded(2, None)
  {
    PieceIsLost(c, x, y, a, b);
    LoadFails(c, Run(c, TwoWriters(c, x, y, a, b), lose), y, b);
  }

  lemma PieceIsLost(c: Catalogue, x: Indexed, y: Indexed, a: string, b: string)
    requires IsSmall(c, x, a) && IsSmall(c, y, b) && a != b
    ensures var s := Run(c, TwoWriters(c, x, y, a, b), [Advance(0), Advance(1), Unlink(0, b)]);
      && s.published == [x, y] && b !in s.disk.pieces && 2 !in s.processes
      && s.disk.head == Some(HeadFrom(y, [PieceOf(c, b)]))
  {
    RunThree(c, TwoWriters(c, x, y, a, b), Advance(0), Advance(1), Unlink(0, b));
  }

  lemma LoadFails(c: Catalogue, s: State, y: Indexed, b: string)
    requires IsSmall(c, y, b) && y.manifest.files == map[] && 2 !in s.processes && b !in s.disk.pieces && |s.published| == 2
    requires s.disk.head == Some(HeadFrom(y, [PieceOf(c, b)]))
    ensures var s' := Run(c, s, [BeginLoad(2), Advance(2), Advance(2)]);
      s'.disk == s.disk && s'.published == s.published && 2 in s'.processes && s'.processes[2] == Loaded(2, None)
  {
    var piece := PieceOf(c, b);
    SmallTotal(piece);
    var head := s.disk.head.value;
    assert head.shards == [] && head.directories == piece && head.shards + [head.directories] == [piece] && head.fileCount == 0;
    assert InOrder(map[], 0) == [] && AfterShards(head, []) == Some(map[]);
    RunThree(c, s, BeginLoad(2), Advance(2), Advance(2));
  }
}
