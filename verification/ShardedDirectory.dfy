/**
 * The sharded cache of one workspace when nothing else touches it: `writeShardedManifest` and
 * `loadShardedManifest` undo each other, and the protocol's theorem holds of the pieces they name.
 */
module ShardedDirectory {
  import opened Wrappers
  import opened SourceIndex
  import opened IncrementalBuild
  import opened ShardedCache
  import opened ShardedProtocol
  import Sorting

  // ----- the catalogue of this code's pieces

  function NamesOf(pieces: seq<Piece>): (names: seq<string>)
    ensures |names| == |pieces| && forall i :: 0 <= i < |pieces| ==> names[i] == pieces[i].name
  {
    seq(|pieces|, i requires 0 <= i < |pieces| => pieces[i].name)
  }

  function ContentsOf(pieces: seq<Piece>): (contents: seq<Content>)
    ensures |contents| == |pieces| && forall i :: 0 <= i < |pieces| ==> contents[i] == pieces[i].content
  {
    seq(|pieces|, i requires 0 <= i < |pieces| => pieces[i].content)
  }

  ghost function PieceNamed(w: Store, name: string): (p: Option<Piece>)
    requires SoundStore(w)
    ensures p.Some? ==> IsPiece(w, p.value) && p.value.name == name
    ensures p.None? ==> forall q :: IsPiece(w, q) ==> q.name != name
  {
    if exists q :: IsPiece(w, q) && q.name == name then (var q :| IsPiece(w, q) && q.name == name; Some(q)) else None
  }

  ghost function ContentOf(w: Store, name: string): Content
    requires SoundStore(w)
  {
    var p := PieceNamed(w, name);
    if p.Some? then p.value.content else FilesPiece(map[])
  }

  ghost function CatalogueOf(w: Store): Catalogue
    requires SoundStore(w)
  {
    Catalogue(x => NamesOf(Pieces(w, x)), name => ContentOf(w, name), x => Made(w, x), w.bytes, w.stored)
  }

  lemma ContentOfPiece(w: Store, x: Indexed, p: Piece)
    requires SoundStore(w) && Made(w, x) && p in Pieces(w, x)
    ensures ContentOf(w, p.name) == p.content
  {
    assert IsPiece(w, p) by {
      assert HasPiece(w, x, p);
    }
    PieceNameDeterminesContent(w, p, PieceNamed(w, p.name).value);
  }

  lemma MergedOneMore(contents: seq<Content>, files: Files, empty: bool, more: Files, together: Files)
    requires Merged(contents) == Some(files) && forall path :: path in more ==> more[path].path == path
    requires files + more == together && (empty ==> files == together)
    ensures Merged(contents + if empty then [] else [FilesPiece(more)]) == Some(together)
  {
    assert (contents + [FilesPiece(more)])[..|contents|] == contents;
    assert contents + [] == contents;
  }

  /** The first `buckets` buckets read back as the files in them. */
  lemma {:induction false} BucketsMerge(w: Store, m: Manifest, buckets: nat)
    requires ListsOnce(w.sorted(m.files.Keys), m.files.Keys) && buckets <= SHARD_COUNT
    requires forall path :: path in m.files ==> m.files[path].path == path
    ensures Merged(ContentsOf(BucketPieces(w, m, buckets))) == Some(FilesBelow(w, m.files, buckets))
  {
    if buckets == 0 {
      NoBucketsMerge(w, m);
    } else {
      var before := buckets - 1;
      BucketsMerge(w, m, before);
      OneMoreBucketMerges(w, m, before, buckets);
    }
  }

  lemma NoBucketsMerge(w: Store, m: Manifest)
    requires ListsOnce(w.sorted(m.files.Keys), m.files.Keys)
    ensures Merged(ContentsOf(BucketPieces(w, m, 0))) == Some(FilesBelow(w, m.files, 0))
  {
    assert ContentsOf(BucketPieces(w, m, 0)) == [];
    assert FilesBelow(w, m.files, 0) == map[];
  }

  lemma OneMoreBucketMerges(w: Store, m: Manifest, bucket: nat, next: nat)
    requires ListsOnce(w.sorted(m.files.Keys), m.files.Keys) && next == bucket + 1 <= SHARD_COUNT
    requires forall path :: path in m.files ==> m.files[path].path == path
    requires Merged(ContentsOf(BucketPieces(w, m, bucket))) == Some(FilesBelow(w, m.files, bucket))
    ensures Merged(ContentsOf(BucketPieces(w, m, next))) == Some(FilesBelow(w, m.files, next))
  {
    OneMoreBucket(w, m, bucket, next);
    ContentsOfBucket(w, m, bucket, next);
    var paths := BucketPaths(w, m.files, bucket);
    MergedOneMore(ContentsOf(BucketPieces(w, m, bucket)), FilesBelow(w, m.files, bucket), paths == [],
                  Restrict(m.files, paths), FilesBelow(w, m.files, next));
  }

  lemma ContentsOfBucket(w: Store, m: Manifest, bucket: nat, next: nat)
    requires ListsOnce(w.sorted(m.files.Keys), m.files.Keys) && next == bucket + 1 <= SHARD_COUNT
    ensures var paths := BucketPaths(w, m.files, bucket);
      ContentsOf(BucketPieces(w, m, next))
      == ContentsOf(BucketPieces(w, m, bucket)) + if paths == [] then [] else [FilesPiece(Restrict(m.files, paths))]
  {
    if BucketPaths(w, m.files, bucket) == [] {
      assert BucketPieces(w, m, next) == BucketPieces(w, m, bucket);
    } else {
      assert BucketPieces(w, m, next) == BucketPieces(w, m, bucket) + [BucketPiece(w, m, bucket)];
    }
  }

  function FilesBelow(w: Store, files: Files, buckets: nat): Files {
    map p | p in files && w.bucket(p) < buckets :: files[p]
  }

  lemma OneMoreBucket(w: Store, m: Manifest, bucket: nat, next: nat)
    requires ListsOnce(w.sorted(m.files.Keys), m.files.Keys) && next == bucket + 1
    ensures FilesBelow(w, m.files, bucket) + Restrict(m.files, BucketPaths(w, m.files, bucket)) == FilesBelow(w, m.files, next)
    ensures BucketPaths(w, m.files, bucket) == [] ==> FilesBelow(w, m.files, bucket) == FilesBelow(w, m.files, next)
  {
    assert forall p :: p in m.files && w.bucket(p) == bucket ==> p in BucketPaths(w, m.files, bucket);
  }

  lemma CompleteIfPieces(c: Catalogue, x: Indexed, pieces: seq<Piece>)
    requires pieces != [] && c.names(x) == NamesOf(pieces)
    requires Holds(c, pieces)
    requires Merged(ContentsOf(pieces[..|pieces| - 1])) == Some(x.manifest.files)
    requires pieces[|pieces| - 1].content == DirectoriesPiece(x.directories)
    ensures Complete(c, x)
  {
    assert Contents(c, c.names(x)[..|pieces| - 1]) == ContentsOf(pieces[..|pieces| - 1]);
  }

  lemma CatalogueIsComplete(w: Store, x: Indexed)
    requires SoundStore(w) && Made(w, x)
    ensures Complete(CatalogueOf(w), x)
  {
    var pieces := Pieces(w, x);
    PiecesHold(w, x);
    assert pieces[..|pieces| - 1] == BucketPieces(w, x.manifest, SHARD_COUNT);
    AllBuckets(w, x.manifest);
    CompleteIfPieces(CatalogueOf(w), x, pieces);
  }

  lemma AllBuckets(w: Store, m: Manifest)
    requires SoundStore(w) && ProducedFiles(w.engines(m.engineVersion), m.files)
    ensures Merged(ContentsOf(BucketPieces(w, m, SHARD_COUNT))) == Some(m.files)
  {
    BucketsMerge(w, m, SHARD_COUNT);
    assert FilesBelow(w, m.files, SHARD_COUNT) == m.files;
  }

  /**
   * The protocol over this code's pieces: on every run a load returns nothing or exactly one published
   * manifest, with that manifest's own directory digests.
   */
  lemma LoadIsOnePublishedManifest(w: Store, steps: seq<Step>, id: nat)
    requires SoundStore(w) && forall step :: step in steps && step.BeginWrite? ==> Made(w, step.x)
    requires var s := Run(CatalogueOf(w), EMPTY, steps);
      id in s.processes && s.processes[id].Loaded? && s.processes[id].result.Some?
    ensures var s := Run(CatalogueOf(w), EMPTY, steps); var p := s.processes[id];
      && 0 < p.start <= |s.published| && p.result.value == s.published[p.start - 1]
      && Made(w, p.result.value)
  {
    var c := CatalogueOf(w);
    forall x | c.made(x)
      ensures Complete(c, x)
    {
      CatalogueIsComplete(w, x);
    }
    LoadIsNeverAMixture(c, steps, id);
  }

  // ----- one writer, undisturbed

  function SizedPieces(w: Store, pieces: seq<Piece>): (sized: seq<ShardPiece>)
    ensures |sized| == |pieces|
    ensures forall i :: 0 <= i < |pieces| ==> sized[i] == ShardPiece(pieces[i].name, w.bytes(pieces[i].content))
  {
    seq(|pieces|, i requires 0 <= i < |pieces| => ShardPiece(pieces[i].name, w.bytes(pieces[i].content)))
  }

  /** Within the limits on one piece and on all of them. */
  ghost predicate Fits(w: Store, pieces: seq<Piece>) {
    && (forall p :: p in pieces ==> w.bytes(p.content) <= 0x1000_0000)
    && TotalBytes(SizedPieces(w, pieces)) <= 0x4000_0000
  }

  lemma FitsOneMore(w: Store, pieces: seq<Piece>, p: Piece)
    ensures SizedPieces(w, pieces + [p]) == SizedPieces(w, pieces) + [ShardPiece(p.name, w.bytes(p.content))]
    ensures TotalBytes(SizedPieces(w, pieces + [p])) == TotalBytes(SizedPieces(w, pieces)) + w.bytes(p.content)
    ensures Fits(w, pieces) ==>
      (Fits(w, pieces + [p]) <==>
       w.bytes(p.content) <= MAX_SHARD_BYTES
       && TotalBytes(SizedPieces(w, pieces)) + w.bytes(p.content) <= MAX_SHARDED_MANIFEST_BYTES)
  {
    var sized := SizedPieces(w, pieces + [p]);
    assert sized == SizedPieces(w, pieces) + [ShardPiece(p.name, w.bytes(p.content))];
    assert sized[..|pieces|] == SizedPieces(w, pieces);
  }

  lemma {:induction false} FitsPrefix(w: Store, pieces: seq<Piece>, k: nat)
    requires k <= |pieces|
    ensures Fits(w, pieces) ==> Fits(w, pieces[..k])
    decreases |pieces|
  {
    if k < |pieces| {
      var init, last := pieces[..|pieces| - 1], pieces[|pieces| - 1];
      FitsOneMore(w, init, last);
      assert pieces == init + [last];
      FitsPrefix(w, init, k);
      assert init[..k] == pieces[..k];
    } else {
      assert pieces[..k] == pieces;
    }
  }

  method FillBuckets(w: Store, files: Files) returns (buckets: array<seq<string>>)
    requires SoundStore(w)
    ensures fresh(buckets) && buckets.Length == SHARD_COUNT
    ensures forall b :: 0 <= b < SHARD_COUNT ==> buckets[b] == InBucket(w, w.sorted(files.Keys), b)
  {
    buckets := new seq<string>[SHARD_COUNT](_ => []);
    var paths := w.sorted(files.Keys);
    for k := 0 to |paths|
      invariant forall b :: 0 <= b < SHARD_COUNT ==> buckets[b] == InBucket(w, paths[..k], b)
    {
      assert paths[..k + 1][..k] == paths[..k];
      buckets[w.bucket(paths[k])] := buckets[w.bucket(paths[k])] + [paths[k]];
    }
    assert paths[..|paths|] == paths;
  }

  class CacheDirectory {
    var head: Option<Head>
    var pieces: map<string, Content>

    /** Every piece on disk is what its name says, and so are the sizes in the head. */
    ghost predicate Right(c: Catalogue)
      reads this
    {
      DiskRight(c, Disk(head, pieces)) && RightSizes(c, KnownPieces(head))
    }

    static ghost predicate RightSizes(c: Catalogue, known: map<string, nat>) {
      KnownRight(c, known) && forall name :: name in known ==> known[name] <= MAX_SHARD_BYTES
    }

    /** A piece the previous head names and that is still on disk is not serialized again. */
    method EnsurePiece(w: Store, ghost c: Catalogue, piece: Piece, known: map<string, nat>) returns (bytes: Option<nat>)
      requires c.bytes == w.bytes && c.contentOf(piece.name) == piece.content
      requires DiskRight(c, Disk(head, pieces)) && RightSizes(c, known)
      modifies `pieces
      ensures DiskRight(c, Disk(head, pieces))
      ensures old(pieces).Keys <= pieces.Keys
      ensures bytes.None? <==> w.bytes(piece.content) > MAX_SHARD_BYTES
      ensures bytes.Some? ==> bytes.value == w.bytes(piece.content) && piece.name in pieces
    {
      if piece.name in known && piece.name in pieces {
        return Some(known[piece.name]);
      }
      if w.bytes(piece.content) > MAX_SHARD_BYTES {
        return None;
      }
      pieces := pieces[piece.name := piece.content];
      return Some(w.bytes(piece.content));
    }

    /** Stops, with the pieces so far on disk, at the piece that is or makes all together too large. */
    method EnsureAll(w: Store, ghost c: Catalogue, all: seq<Piece>, known: map<string, nat>) returns (done: Option<seq<ShardPiece>>)
      requires c.bytes == w.bytes && Holds(c, all)
      requires DiskRight(c, Disk(head, pieces)) && RightSizes(c, known)
      modifies `pieces
      ensures DiskRight(c, Disk(head, pieces))
      ensures done.None? <==> !Fits(w, all)
      ensures done.Some? ==> done.value == SizedPieces(w, all) && forall p :: p in all ==> p.name in pieces
    {
      var total: nat, sized: seq<ShardPiece> := 0, [];
      for k := 0 to |all|
        invariant sized == SizedPieces(w, all[..k]) && total == TotalBytes(sized) && Fits(w, all[..k])
        invariant DiskRight(c, Disk(head, pieces))
        invariant forall i :: 0 <= i < k ==> all[i].name in pieces
      {
        FitsOneMore(w, all[..k], all[k]);
        Sorting.PrefixGrows(all, k);
        var bytes := EnsurePiece(w, c, all[k], known);
        if bytes.None? || total + bytes.value > MAX_SHARDED_MANIFEST_BYTES {
          FitsPrefix(w, all, k + 1);
          return None;
        }
        total, sized := total + bytes.value, sized + [ShardPiece(all[k].name, bytes.value)];
      }
      assert all[..|all|] == all;
      return Some(sized);
    }

    /** At most `READ_CONCURRENCY` reads are in flight and they end in any order. */
    method ReadShards(w: Store, shards: seq<ShardPiece>) returns (contents: Option<seq<Content>>)
      ensures contents == ReadAll(w, Disk(head, pieces), shards)
    {
      var results := new Option<Content>[|shards|](_ => None);
      var next, inFlight: set<nat> := 0, {};
      while next < |shards| || inFlight != {}
        invariant next <= |shards| && forall i :: i in inFlight ==> 0 <= i < next
        invariant forall i :: 0 <= i < next && i !in inFlight ==>
          results[i].Some? && results[i] == ReadPiece(w.bytes, w.stored, Disk(head, pieces), shards[i])
        decreases |shards| - next, inFlight
      {
        var claim := *;
        if next < |shards| && |inFlight| < READ_CONCURRENCY && (claim || inFlight == {}) {
          next, inFlight := next + 1, inFlight + {next};
        } else {
          var index :| index in inFlight;
          var content := ReadPiece(w.bytes, w.stored, Disk(head, pieces), shards[index]);
          if content.None? {
            return None;
          }
          results[index] := content;
          inFlight := inFlight - {index};
        }
      }
      contents := Some(seq(|shards|, i requires 0 <= i < |shards| && results[i].Some? reads results => results[i].value));
      forall i | 0 <= i < |shards|
        ensures ReadPiece(w.bytes, w.stored, Disk(head, pieces), shards[i]) == Some(contents.value[i])
      {
        assert i !in inFlight;
      }
      assert contents.value == ReadAll(w, Disk(head, pieces), shards).value;
    }

    method LoadShardedManifest(w: Store) returns (loaded: Option<Indexed>)
      ensures loaded == LoadOf(w, Disk(head, pieces))
    {
      if head.None? || TotalBytes(head.value.shards + [head.value.directories]) > MAX_SHARDED_MANIFEST_BYTES {
        return None;
      }
      var contents := ReadShards(w, head.value.shards);
      if contents.None? {
        return None;
      }
      var files := AfterShards(head.value, contents.value);
      if files.None? {
        return None;
      }
      var directories := ReadPiece(w.bytes, w.stored, Disk(head, pieces), head.value.directories);
      if directories.None? {
        return None;
      }
      return Assembled(head.value, files.value, directories.value);
    }

    method RemovePiecesExcept(keep: set<string>)
      modifies `pieces
      ensures forall name :: name in pieces <==> name in old(pieces) && name in keep
      ensures forall name :: name in pieces ==> pieces[name] == old(pieces)[name]
    {
      var doomed := pieces.Keys - keep;
      while doomed != {}
        invariant doomed <= pieces.Keys && doomed !! keep && pieces.Keys - doomed == old(pieces).Keys * keep
        invariant forall name :: name in pieces ==> name in old(pieces) && pieces[name] == old(pieces)[name]
      {
        var name :| name in doomed;
        pieces, doomed := pieces - {name}, doomed - {name};
      }
      assert pieces.Keys == old(pieces).Keys * keep;
    }

    /** An undisturbed writer publishes exactly what fits; otherwise the previous head stands. */
    method WriteShardedManifest(w: Store, x: Indexed) returns (published: bool)
      requires SoundStore(w) && Made(w, x) && Right(CatalogueOf(w))
      modifies this
      ensures Right(CatalogueOf(w))
      ensures published <==> Fits(w, Pieces(w, x))
      ensures published ==> head == Some(HeadFrom(x, SizedPieces(w, Pieces(w, x))))
      ensures published ==> forall name :: name in pieces <==> name in NamesOf(Pieces(w, x))
      ensures !published ==> head == old(head)
    {
      var shardPieces := ShardPieces(w, x.manifest);
      PiecesHold(w, x);
      published := WritePieces(w, CatalogueOf(w), x, shardPieces + [DirectoriesPieceOf(w, x)]);
    }

    method WritePieces(w: Store, ghost c: Catalogue, x: Indexed, all: seq<Piece>) returns (published: bool)
      requires c.bytes == w.bytes && all != [] && Holds(c, all) && Right(c)
      modifies this
      ensures Right(c)
      ensures published <==> Fits(w, all)
      ensures published ==> head == Some(HeadFrom(x, SizedPieces(w, all)))
      ensures published ==> forall name :: name in pieces <==> name in NamesOf(all)
      ensures !published ==> head == old(head)
    {
      var done := EnsureAll(w, c, all, KnownPieces(head));
      if done.None? {
        return false;
      }
      head := Some(HeadFrom(x, done.value));
      RightAfterPublish(w, c, all, done.value);
      RemovePiecesExcept(set name | name in NamesOf(all));
      return true;
    }
  }

  // ----- one reader, undisturbed

  ghost function ReadAll(w: Store, d: Disk, shards: seq<ShardPiece>): (contents: Option<seq<Content>>)
    ensures contents.Some? ==> |contents.value| == |shards|
  {
    if exists i :: 0 <= i < |shards| && ReadPiece(w.bytes, w.stored, d, shards[i]).None? then None
    else Some(seq(|shards|, i requires 0 <= i < |shards| && ReadPiece(w.bytes, w.stored, d, shards[i]).Some? =>
      ReadPiece(w.bytes, w.stored, d, shards[i]).value))
  }

  /** What an undisturbed load returns. */
  ghost function LoadOf(w: Store, d: Disk): Option<Indexed> {
    if d.head.None? then None
    else
      var head := d.head.value;
      var contents := ReadAll(w, d, head.shards);
      var directories := ReadPiece(w.bytes, w.stored, d, head.directories);
      if TotalBytes(head.shards + [head.directories]) > MAX_SHARDED_MANIFEST_BYTES || contents.None? then None
      else if AfterShards(head, contents.value).None? || directories.None? then None
      else Assembled(head, AfterShards(head, contents.value).value, directories.value)
  }

  /** The piece is there, within the limit on its compressed form, and as large as the head says. */
  ghost predicate Intact(w: Store, d: Disk, piece: ShardPiece) {
    && piece.name in d.pieces && w.stored(d.pieces[piece.name]) <= 0x1000_0000
    && w.bytes(d.pieces[piece.name]) == piece.bytes
  }

  /** A piece of a bucket whose entries are each listed under their own path. */
  ghost predicate HoldsEntries(content: Content) {
    content.FilesPiece? && forall path :: path in content.files ==> content.files[path].path == path
  }

  /** Some shard of `head` on disk has an entry of the path, and the last one that has it has `e`. */
  ghost predicate LastEntry(d: Disk, head: Head, path: string, e: IndexedFile) {
    exists i :: 0 <= i < |head.shards| && HasEntry(d, head, i, path, e)
      && forall j :: i < j < |head.shards| ==> !ListsPath(d, head, j, path)
  }

  ghost predicate HasEntry(d: Disk, head: Head, i: nat, path: string, e: IndexedFile)
    requires i < |head.shards|
  {
    ListsPath(d, head, i, path) && d.pieces[head.shards[i].name].files[path] == e
  }

  ghost predicate ListsPath(d: Disk, head: Head, i: nat, path: string)
    requires i < |head.shards|
  {
    var name := head.shards[i].name;
    name in d.pieces && d.pieces[name].FilesPiece? && path in d.pieces[name].files
  }

  /**
   * A load gives something exactly when there is a head, of at most 1 GiB in all, every piece it lists is intact,
   * each shard has its entries under their own paths, the directories piece has directories, and the shards list as
   * many paths as the head says. Then it gives the head's fields, these entries and these directories.
   */
  lemma LoadsExactly(w: Store, d: Disk, paths: set<string>)
    requires d.head.Some? ==> forall path :: path in paths <==> exists i :: 0 <= i < |d.head.value.shards| && ListsPath(d, d.head.value, i, path)
    ensures LoadOf(w, d).Some? <==>
      && d.head.Some?
      && var head := d.head.value;
        && TotalBytes(head.shards + [head.directories]) <= 0x4000_0000
        && (forall i :: 0 <= i < |head.shards| ==> Intact(w, d, head.shards[i]) && HoldsEntries(d.pieces[head.shards[i].name]))
        && Intact(w, d, head.directories) && d.pieces[head.directories.name].DirectoriesPiece?
        && |paths| == head.fileCount
    ensures LoadOf(w, d).Some? ==>
      var head, x := d.head.value, LoadOf(w, d).value;
      && x.directories == d.pieces[head.directories.name].directories
      && x.manifest.files.Keys == paths
      && (forall path :: path in paths ==> LastEntry(d, head, path, x.manifest.files[path]))
      && x.manifest == Manifest(head.engineVersion, head.repoRootRealpath, head.ignoreHash, head.builtFromCommit, head.rootHash,
                                head.generation, x.manifest.files)
  {
    if d.head.Some? {
      var head := d.head.value;
      if forall i :: 0 <= i < |head.shards| ==> Intact(w, d, head.shards[i]) {
        var contents := IntactAreRead(w, d, head.shards);
        LoadOfContents(w, d, contents);
        AllHoldEntries(d, head, contents);
        if Merged(contents).Some? {
          MergedFromDisk(d, head, contents, paths);
        }
      } else {
        DamagedIsNotRead(w, d, head.shards);
      }
    }
  }

  lemma DamagedIsNotRead(w: Store, d: Disk, shards: seq<ShardPiece>)
    requires exists i :: 0 <= i < |shards| && !Intact(w, d, shards[i])
    ensures ReadAll(w, d, shards).None?
  {
    var i :| 0 <= i < |shards| && !Intact(w, d, shards[i]);
    assert ReadPiece(w.bytes, w.stored, d, shards[i]).None?;
  }

  lemma AllHoldEntries(d: Disk, head: Head, contents: seq<Content>)
    requires |contents| == |head.shards|
    requires forall i :: 0 <= i < |contents| ==> head.shards[i].name in d.pieces && contents[i] == d.pieces[head.shards[i].name]
    ensures Merged(contents).Some? <==> forall i :: 0 <= i < |head.shards| ==> HoldsEntries(d.pieces[head.shards[i].name])
  {
    MergedIs(contents);
    forall i | 0 <= i < |contents|
      ensures HoldsEntries(contents[i]) <==> HoldsEntries(d.pieces[head.shards[i].name])
    {
    }
    if forall i :: 0 <= i < |head.shards| ==> HoldsEntries(d.pieces[head.shards[i].name]) {
      assert forall i :: 0 <= i < |contents| ==> HoldsEntries(contents[i]);
    }
    if forall i :: 0 <= i < |contents| ==> HoldsEntries(contents[i]) {
      forall i | 0 <= i < |head.shards|
        ensures HoldsEntries(d.pieces[head.shards[i].name])
      {
        assert HoldsEntries(contents[i]);
      }
    }
  }

  lemma LoadOfContents(w: Store, d: Disk, contents: seq<Content>)
    requires d.head.Some? && ReadAll(w, d, d.head.value.shards) == Some(contents)
    ensures var head, files := d.head.value, Merged(contents);
      LoadOf(w, d) ==
        if TotalBytes(head.shards + [head.directories]) <= 0x4000_0000 && files.Some? && |files.value| == head.fileCount
           && Intact(w, d, head.directories) && d.pieces[head.directories.name].DirectoriesPiece?
        then Some(Indexed(
               Manifest(head.engineVersion, head.repoRootRealpath, head.ignoreHash, head.builtFromCommit, head.rootHash,
                        head.generation, files.value),
               d.pieces[head.directories.name].directories))
        else None
  {
  }

  lemma IntactAreRead(w: Store, d: Disk, shards: seq<ShardPiece>) returns (contents: seq<Content>)
    requires forall i :: 0 <= i < |shards| ==> Intact(w, d, shards[i])
    ensures ReadAll(w, d, shards) == Some(contents) && |contents| == |shards|
    ensures forall i :: 0 <= i < |shards| ==> contents[i] == d.pieces[shards[i].name]
  {
    forall i | 0 <= i < |shards|
      ensures ReadPiece(w.bytes, w.stored, d, shards[i]) == Some(d.pieces[shards[i].name])
    {
      assert Intact(w, d, shards[i]);
    }
    contents := ReadAll(w, d, shards).value;
  }

  lemma MergedFromDisk(d: Disk, head: Head, contents: seq<Content>, paths: set<string>)
    requires |contents| == |head.shards| && Merged(contents).Some?
    requires forall i :: 0 <= i < |contents| ==> head.shards[i].name in d.pieces && contents[i] == d.pieces[head.shards[i].name]
    requires forall path :: path in paths <==> exists i :: 0 <= i < |head.shards| && ListsPath(d, head, i, path)
    ensures Merged(contents).value.Keys == paths
    ensures forall path :: path in paths ==> LastEntry(d, head, path, Merged(contents).value[path])
  {
    MergedIs(contents);
    var files := Merged(contents).value;
    assert forall i, path :: 0 <= i < |contents| ==> (ListsPath(d, head, i, path) <==> path in contents[i].files);
    forall path | path in files
      ensures LastEntry(d, head, path, files[path]) && path in paths
    {
      var i :| 0 <= i < |contents| && IsLastWith(contents, i, path) && contents[i].files[path] == files[path];
      assert HasEntry(d, head, i, path, files[path]);
    }
    forall path | path in paths
      ensures path in files
    {
      var i :| 0 <= i < |head.shards| && ListsPath(d, head, i, path);
      assert path in contents[i].files;
    }
  }

  ghost predicate IsLastWith(contents: seq<Content>, i: nat, path: string)
    requires i < |contents|
  {
    && contents[i].FilesPiece? && path in contents[i].files
    && forall j :: i < j < |contents| ==> contents[j].FilesPiece? && path !in contents[j].files
  }

  lemma {:induction false} MergedIs(contents: seq<Content>)
    ensures Merged(contents).Some? <==> forall i :: 0 <= i < |contents| ==> HoldsEntries(contents[i])
    ensures Merged(contents).Some? ==> IsMerged(contents, Merged(contents).value)
  {
    if contents != [] {
      var init, last := contents[..|contents| - 1], contents[|contents| - 1];
      MergedIs(init);
      assert forall i :: 0 <= i < |init| ==> init[i] == contents[i];
      if Merged(contents).Some? {
        OneMoreMerged(init, last, Merged(init).value);
        assert contents == init + [last];
      }
    }
  }

  /** Every path of some piece, with the entry of the last one that has it. */
  ghost predicate IsMerged(contents: seq<Content>, files: Files) {
    && (forall i, path :: 0 <= i < |contents| && contents[i].FilesPiece? && path in contents[i].files ==> path in files)
    && forall path :: path in files ==>
         exists i :: 0 <= i < |contents| && IsLastWith(contents, i, path) && contents[i].files[path] == files[path]
  }

  lemma OneMoreMerged(init: seq<Content>, last: Content, files: Files)
    requires IsMerged(init, files) && last.FilesPiece? && forall i :: 0 <= i < |init| ==> init[i].FilesPiece?
    ensures IsMerged(init + [last], files + last.files)
  {
    var contents := init + [last];
    forall path | path in files + last.files
      ensures exists i :: 0 <= i < |contents| && IsLastWith(contents, i, path) && contents[i].files[path] == (files + last.files)[path]
    {
      if path in last.files {
        assert IsLastWith(contents, |init|, path);
      } else {
        var i :| 0 <= i < |init| && IsLastWith(init, i, path) && init[i].files[path] == files[path];
        assert IsLastWith(contents, i, path);
      }
    }
  }

  ghost predicate Readable(w: Store, pieces: seq<Piece>) {
    forall i :: 0 <= i < |pieces| ==> w.stored(pieces[i].content) <= MAX_SHARD_BYTES
  }

  lemma ReadWritten(w: Store, d: Disk, pieces: seq<Piece>)
    requires forall i :: 0 <= i < |pieces| ==> pieces[i].name in d.pieces && d.pieces[pieces[i].name] == pieces[i].content
    ensures ReadAll(w, d, SizedPieces(w, pieces)) == if Readable(w, pieces) then Some(ContentsOf(pieces)) else None
  {
    var sized := SizedPieces(w, pieces);
    forall i | 0 <= i < |pieces|
      ensures ReadPiece(w.bytes, w.stored, d, sized[i])
           == if w.stored(pieces[i].content) <= MAX_SHARD_BYTES then Some(pieces[i].content) else None
    {
    }
    if Readable(w, pieces) {
      assert ReadAll(w, d, sized).value == ContentsOf(pieces);
    }
  }

  /**
   * What an undisturbed writer published, an undisturbed load returns; unless the compressed form of a
   * piece is over the limit that only readers apply to it, and then the load returns nothing.
   */
  lemma WrittenLoadsBack(w: Store, x: Indexed, d: Disk)
    requires SoundStore(w) && Made(w, x) && Fits(w, Pieces(w, x)) && DiskRight(CatalogueOf(w), d)
    requires d.head == Some(HeadFrom(x, SizedPieces(w, Pieces(w, x))))
    requires forall name :: name in NamesOf(Pieces(w, x)) ==> name in d.pieces
    ensures LoadOf(w, d) == if Readable(w, Pieces(w, x)) then Some(x) else None
  {
    PiecesHold(w, x);
    AllBuckets(w, x.manifest);
    WrittenPiecesLoadBack(w, CatalogueOf(w), x, BucketPieces(w, x.manifest, SHARD_COUNT), DirectoriesPieceOf(w, x), d);
  }

  lemma WrittenPiecesLoadBack(w: Store, c: Catalogue, x: Indexed, shards: seq<Piece>, last: Piece, d: Disk)
    requires c.bytes == w.bytes && Holds(c, shards + [last]) && Fits(w, shards + [last]) && DiskRight(c, d)
    requires Merged(ContentsOf(shards)) == Some(x.manifest.files) && last.content == DirectoriesPiece(x.directories)
    requires d.head == Some(HeadFrom(x, SizedPieces(w, shards + [last])))
    requires forall name :: name in NamesOf(shards + [last]) ==> name in d.pieces
    ensures LoadOf(w, d) == if Readable(w, shards + [last]) then Some(x) else None
  {
    WrittenHead(w, x, shards, last, d.head.value);
    WrittenAreThere(c, shards, last, d);
    ReadWritten(w, d, shards);
    ReadableOneMore(w, shards, last);
    if Readable(w, shards) {
      LoadOfContents(w, d, ContentsOf(shards));
    }
  }

  lemma WrittenAreThere(c: Catalogue, shards: seq<Piece>, last: Piece, d: Disk)
    requires Holds(c, shards + [last]) && DiskRight(c, d) && forall name :: name in NamesOf(shards + [last]) ==> name in d.pieces
    ensures forall i :: 0 <= i < |shards| ==> shards[i].name in d.pieces && d.pieces[shards[i].name] == shards[i].content
    ensures last.name in d.pieces && d.pieces[last.name] == last.content
  {
    var all := shards + [last];
    assert forall i :: 0 <= i < |all| ==> NamesOf(all)[i] in NamesOf(all);
    assert forall i :: 0 <= i < |shards| ==> all[i] == shards[i];
    assert all[|shards|] == last;
  }

  lemma WrittenHead(w: Store, x: Indexed, shards: seq<Piece>, last: Piece, head: Head)
    requires head == HeadFrom(x, SizedPieces(w, shards + [last])) && Fits(w, shards + [last])
    ensures head.shards == SizedPieces(w, shards) && head.directories == ShardPiece(last.name, w.bytes(last.content))
    ensures TotalBytes(head.shards + [head.directories]) <= MAX_SHARDED_MANIFEST_BYTES
  {
    FitsOneMore(w, shards, last);
    var sized := SizedPieces(w, shards + [last]);
    assert sized[..|shards|] == SizedPieces(w, shards);
    assert head.shards + [head.directories] == sized;
  }

  lemma ReadableOneMore(w: Store, shards: seq<Piece>, last: Piece)
    ensures Readable(w, shards + [last]) <==> Readable(w, shards) && w.stored(last.content) <= MAX_SHARD_BYTES
  {
    var all := shards + [last];
    assert all[|shards|] == last && forall i :: 0 <= i < |shards| ==> all[i] == shards[i];
  }

  ghost predicate Holds(c: Catalogue, all: seq<Piece>) {
    forall i :: 0 <= i < |all| ==> c.contentOf(all[i].name) == all[i].content
  }

  lemma PiecesHold(w: Store, x: Indexed)
    requires SoundStore(w) && Made(w, x)
    ensures Holds(CatalogueOf(w), Pieces(w, x))
  {
    var pieces := Pieces(w, x);
    forall i | 0 <= i < |pieces|
      ensures ContentOf(w, pieces[i].name) == pieces[i].content
    {
      ContentOfPiece(w, x, pieces[i]);
    }
  }

  lemma RightAfterPublish(w: Store, c: Catalogue, all: seq<Piece>, done: seq<ShardPiece>)
    requires c.bytes == w.bytes && all != [] && done == SizedPieces(w, all) && Fits(w, all) && Holds(c, all)
    ensures CacheDirectory.RightSizes(c, KnownSizes(done[..|done| - 1] + [done[|done| - 1]]))
  {
    assert done[..|done| - 1] + [done[|done| - 1]] == done;
    assert forall i :: 0 <= i < |all| ==> all[i] in all;
    KnownSizesRight(c, done);
    KnownSizesSmall(done);
  }

  lemma {:induction false} KnownSizesSmall(pieces: seq<ShardPiece>)
    requires forall i :: 0 <= i < |pieces| ==> pieces[i].bytes <= MAX_SHARD_BYTES
    ensures forall name :: name in KnownSizes(pieces) ==> KnownSizes(pieces)[name] <= MAX_SHARD_BYTES
  {
    if pieces != [] {
      KnownSizesSmall(pieces[..|pieces| - 1]);
    }
  }

  /** The non-empty buckets' pieces, in bucket order. */
  method ShardPieces(w: Store, m: Manifest) returns (all: seq<Piece>)
    requires SoundStore(w)
    ensures all == BucketPieces(w, m, SHARD_COUNT)
  {
    var buckets := FillBuckets(w, m.files);
    all := [];
    for bucket := 0 to SHARD_COUNT
      invariant all == BucketPieces(w, m, bucket)
    {
      if buckets[bucket] != [] {
        all := all + [BucketPiece(w, m, bucket)];
      }
    }
  }
}
