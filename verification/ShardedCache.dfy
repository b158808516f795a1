/**
 * The sharded on-disk source index: a head file that names exact pieces. Writers publish pieces
 * first, the head last, then unlink what the head does not name; readers take no lock. What any load
 * returns while writers, readers, removals and crashes interleave, one file operation at a time.
 */
module ShardedCache {
  import opened Wrappers
  import opened SourceIndex
  import opened Strings
  import opened IncrementalBuild
  import Merkle

  const SHARD_COUNT := 64
  const MAX_SHARDED_MANIFEST_BYTES := 1024 * 1024 * 1024
  const MAX_SHARD_BYTES := 256 * 1024 * 1024
  const READ_CONCURRENCY := 4

  type Directories = map<Merkle.Path, Merkle.DirectoryDigest>

  /** What the cache holds: a manifest with its directory digests. */
  datatype Indexed = Indexed(manifest: Manifest, directories: Directories)

  /** What a piece decodes to. */
  datatype Content = FilesPiece(files: Files) | DirectoriesPiece(directories: Directories)

  datatype Piece = Piece(name: string, content: Content)

  datatype ShardPiece = ShardPiece(name: string, bytes: nat)

  datatype Head = Head(
    engineVersion: string,
    repoRootRealpath: string,
    ignoreHash: string,
    builtFromCommit: string,
    rootHash: string,
    generation: nat,
    fileCount: nat,
    directories: ShardPiece,
    shards: seq<ShardPiece>)

  /**
   * The functions this model does not look into: the engines and the content hash; the piece key's
   * hash; a number's decimal form; the size of a piece as JSON text and compressed; the bucket of a
   * path; the sorted listing of a set of paths; the language a path's extension stands for.
   */
  datatype Store = Store(
    engines: string -> Engine,
    sha: string -> string,
    key: string -> string,
    decimal: int -> string,
    bytes: Content -> nat,
    stored: Content -> nat,
    bucket: string -> nat,
    sorted: set<string> -> seq<string>,
    languageOf: string -> string)

  predicate Plain(s: string) {
    '\0' !in s && '\n' !in s
  }

  ghost predicate ListsOnce(order: seq<string>, paths: set<string>) {
    && (forall p :: p in order <==> p in paths)
    && forall i, j :: 0 <= i < j < |order| ==> order[i] != order[j]
  }

  ghost predicate SoundStore(w: Store) {
    && (forall v :: SoundEngine(w.engines(v)) && w.engines(v).sha == w.sha)
    && (forall x, y :: w.key(x) == w.key(y) ==> x == y)
    && (forall n :: Plain(w.decimal(n)))
    && (forall n, n' :: w.decimal(n) == w.decimal(n') ==> n == n')
    && (forall p :: w.bucket(p) < SHARD_COUNT)
    && (forall paths :: ListsOnce(w.sorted(paths), paths))
  }

  // ----- piece names

  function StatusText(status: ParseStatus): string {
    match status
    case Ok => "ok"
    case Quarantined => "quarantined"
    case Failed => "failed"
  }

  function KeyLine(w: Store, path: string, e: IndexedFile): string {
    path + "\0" + (e.contentSha256 + "\0" + (w.decimal(e.sizeBytes) + "\0" + (w.decimal(e.mtimeMs) + "\0" + StatusText(e.parseStatus))))
  }

  function KeyLines(w: Store, files: Files, paths: seq<string>): (lines: seq<string>)
    requires forall p :: p in paths ==> p in files
    ensures |lines| == |paths|
    ensures forall i :: 0 <= i < |paths| ==> lines[i] == KeyLine(w, paths[i], files[paths[i]])
  {
    seq(|paths|, i requires 0 <= i < |paths| => KeyLine(w, paths[i], files[paths[i]]))
  }

  /** "b", the bucket in two digits, "-" */
  function BucketPrefix(bucket: nat): (prefix: string)
    requires bucket < SHARD_COUNT
    ensures |prefix| == 4 && prefix[0] == 'b'
  {
    ['b', ('0' as int + bucket / 10) as char, ('0' as int + bucket % 10) as char, '-']
  }

  function PieceFile(prefix: string, key: string): string {
    prefix + key + ".json.gz"
  }

  // ----- the pieces of a manifest

  function InBucket(w: Store, paths: seq<string>, bucket: nat): (found: seq<string>)
    ensures forall p :: p in found <==> p in paths && w.bucket(p) == bucket
  {
    if paths == [] then []
    else
      InBucket(w, paths[..|paths| - 1], bucket)
      + if w.bucket(paths[|paths| - 1]) == bucket then [paths[|paths| - 1]] else []
  }

  function BucketPaths(w: Store, files: Files, bucket: nat): (paths: seq<string>)
    requires ListsOnce(w.sorted(files.Keys), files.Keys)
    ensures forall p :: p in paths <==> p in files && w.bucket(p) == bucket
  {
    InBucket(w, w.sorted(files.Keys), bucket)
  }

  function Restrict(files: Files, paths: seq<string>): Files {
    map p | p in paths && p in files :: files[p]
  }

  function BucketKeyText(w: Store, engineVersion: string, files: Files, paths: seq<string>): string
    requires forall p :: p in paths ==> p in files
  {
    JoinLines([engineVersion] + KeyLines(w, files, paths))
  }

  function BucketPiece(w: Store, m: Manifest, bucket: nat): Piece
    requires bucket < SHARD_COUNT && ListsOnce(w.sorted(m.files.Keys), m.files.Keys)
  {
    var paths := BucketPaths(w, m.files, bucket);
    Piece(PieceFile(BucketPrefix(bucket), w.key(BucketKeyText(w, m.engineVersion, m.files, paths))),
          FilesPiece(Restrict(m.files, paths)))
  }

  function DirectoriesPieceOf(w: Store, x: Indexed): Piece {
    Piece(PieceFile("dirs-", w.key(JoinLines([x.manifest.engineVersion, x.manifest.rootHash]))), DirectoriesPiece(x.directories))
  }

  function BucketPieces(w: Store, m: Manifest, buckets: nat): seq<Piece>
    requires buckets <= SHARD_COUNT && ListsOnce(w.sorted(m.files.Keys), m.files.Keys)
  {
    if buckets == 0 then []
    else
      BucketPieces(w, m, buckets - 1)
      + if BucketPaths(w, m.files, buckets - 1) == [] then [] else [BucketPiece(w, m, buckets - 1)]
  }

  /** All pieces in the order a writer ensures them: the non-empty buckets, then the directories. */
  function Pieces(w: Store, x: Indexed): (pieces: seq<Piece>)
    requires ListsOnce(w.sorted(x.manifest.files.Keys), x.manifest.files.Keys)
    ensures |pieces| > 0
  {
    BucketPieces(w, x.manifest, SHARD_COUNT) + [DirectoriesPieceOf(w, x)]
  }

  // ----- manifests a writer is handed

  ghost predicate AreDigests(sha: string -> string, contents: map<Merkle.Path, string>, directories: Directories) {
    && (forall d :: d in directories <==> Merkle.Registered(contents, d))
    && forall d :: d in directories ==>
      directories[d]
      == Merkle.DirectoryDigest(d, Merkle.SubdirHashes(sha, contents, d), Merkle.DirHash(sha, contents, d))
  }

  /** What the builds of this code assemble: see `IncrementalBuild` and `Merkle`. */
  ghost predicate Made(w: Store, x: Indexed) {
    var m := x.manifest;
    && Plain(m.engineVersion) && Plain(m.rootHash)
    && ProducedFiles(w.engines(m.engineVersion), m.files)
    && CleanPaths(m.files)
    && PlainFiles(m.files) && PlaceholderLanguages(w, m.files)
    && m.rootHash == RootHash(w.sha, m.files)
    && AreDigests(w.sha, HashedContents(m.files), x.directories)
  }

  ghost predicate PlainFiles(files: Files) {
    forall path :: path in files ==> Plain(path) && Plain(files[path].contentSha256)
  }

  /** An entry that was never read has the language its path was enumerated with. */
  ghost predicate PlaceholderLanguages(w: Store, files: Files) {
    forall path :: path in files && IsPlaceholder(files[path]) ==> files[path].language == w.languageOf(path)
  }

  // ----- a piece's name determines its content

  /** The lines of `parts`, each with its line break. */
  function Terminated(parts: seq<string>): string {
    if parts == [] then "" else parts[0] + "\n" + Terminated(parts[1..])
  }

  lemma {:induction false} JoinTerminated(parts: seq<string>)
    requires parts != []
    ensures JoinLines(parts) + "\n" == Terminated(parts)
  {
    if |parts| > 1 {
      JoinTerminated(parts[1..]);
      assert JoinLines(parts) + "\n" == parts[0] + "\n" + (JoinLines(parts[1..]) + "\n");
    } else {
      assert Terminated(parts[1..]) == "";
    }
  }

  lemma {:induction false} TerminatedInjective(a: seq<string>, b: seq<string>)
    requires Terminated(a) == Terminated(b)
    requires forall s :: s in a || s in b ==> '\n' !in s
    ensures a == b
  {
    if a != [] && b != [] {
      Merkle.CutAtFirst('\n', a[0], Terminated(a[1..]), b[0], Terminated(b[1..]));
      TerminatedInjective(a[1..], b[1..]);
      assert a == [a[0]] + a[1..] && b == [b[0]] + b[1..];
    }
  }

  lemma JoinInjective(a: seq<string>, b: seq<string>)
    requires a != [] && b != [] && JoinLines(a) == JoinLines(b)
    requires forall s :: s in a || s in b ==> '\n' !in s
    ensures a == b
  {
    JoinTerminated(a);
    JoinTerminated(b);
    TerminatedInjective(a, b);
  }

  /** The fields a piece's name is taken of. */
  ghost predicate SameKeyFields(e: IndexedFile, e': IndexedFile) {
    && e.contentSha256 == e'.contentSha256 && e.sizeBytes == e'.sizeBytes
    && e.mtimeMs == e'.mtimeMs && e.parseStatus == e'.parseStatus
  }

  lemma KeyLineInjective(w: Store, path: string, e: IndexedFile, path': string, e': IndexedFile)
    requires SoundStore(w) && KeyLine(w, path, e) == KeyLine(w, path', e')
    requires Plain(path) && Plain(e.contentSha256) && Plain(path') && Plain(e'.contentSha256)
    ensures path == path' && SameKeyFields(e, e')
  {
    var status, status' := StatusText(e.parseStatus), StatusText(e'.parseStatus);
    var mtime, mtime' := w.decimal(e.mtimeMs) + "\0" + status, w.decimal(e'.mtimeMs) + "\0" + status';
    var size, size' := w.decimal(e.sizeBytes) + "\0" + mtime, w.decimal(e'.sizeBytes) + "\0" + mtime';
    var sha, sha' := e.contentSha256 + "\0" + size, e'.contentSha256 + "\0" + size';
    Merkle.CutAtFirst('\0', path, sha, path', sha');
    Merkle.CutAtFirst('\0', e.contentSha256, size, e'.contentSha256, size');
    Merkle.CutAtFirst('\0', w.decimal(e.sizeBytes), mtime, w.decimal(e'.sizeBytes), mtime');
    Merkle.CutAtFirst('\0', w.decimal(e.mtimeMs), status, w.decimal(e'.mtimeMs), status');
    StatusTextInjective(e.parseStatus, e'.parseStatus);
  }

  lemma StatusTextInjective(a: ParseStatus, b: ParseStatus)
    requires StatusText(a) == StatusText(b)
    ensures a == b
  {
    assert StatusText(a)[0] == StatusText(b)[0];
  }

  lemma KeyLineHasNoBreak(w: Store, path: string, e: IndexedFile)
    requires SoundStore(w) && Plain(path) && Plain(e.contentSha256)
    ensures '\n' !in KeyLine(w, path, e)
  {
    assert Plain(w.decimal(e.sizeBytes)) && Plain(w.decimal(e.mtimeMs));
    assert '\n' !in StatusText(e.parseStatus);
  }

  /** Within one engine version, an entry is a function of what its piece's name is taken of. */
  lemma KeyFieldsDetermineEntry(engine: Engine, path: string, e: IndexedFile, e': IndexedFile)
    requires SoundEngine(engine) && Produced(engine, path, e) && Produced(engine, path, e') && SameKeyFields(e, e')
    requires IsPlaceholder(e) && IsPlaceholder(e') ==> e.language == e'.language
    ensures e == e'
  {
    assert forall raw :: ExtractedFrom(engine, e, raw) ==> e.contentSha256 == engine.sha(raw) != "";
    assert forall raw :: ExtractedFrom(engine, e', raw) ==> e'.contentSha256 == engine.sha(raw) != "";
    if !IsPlaceholder(e) {
      var raw :| ExtractedFrom(engine, e, raw);
      var raw' :| ExtractedFrom(engine, e', raw');
      assert raw == raw';
    }
  }

  lemma {:induction false} BucketPiecesAre(w: Store, m: Manifest, buckets: nat)
    requires SoundStore(w) && buckets <= SHARD_COUNT
    ensures forall p :: p in BucketPieces(w, m, buckets) ==> exists b :: 0 <= b < buckets && p == BucketPiece(w, m, b)
  {
    assert ListsOnce(w.sorted(m.files.Keys), m.files.Keys);
    if buckets > 0 {
      BucketPiecesAre(w, m, buckets - 1);
    }
  }

  lemma PieceFileKey(prefix: string, key: string, prefix': string, key': string)
    requires |prefix| == |prefix'| && PieceFile(prefix, key) == PieceFile(prefix', key')
    ensures key == key'
  {
    var name, name' := PieceFile(prefix, key), PieceFile(prefix', key');
    assert |name| == |prefix| + |key| + |".json.gz"| && |name'| == |prefix| + |key'| + |".json.gz"|;
    assert key == name[|prefix|..|prefix| + |key|];
    assert key' == name'[|prefix|..|prefix| + |key|];
  }

  lemma BucketKeyTextDetermines(w: Store, v: string, files: Files, paths: seq<string>, v': string, files': Files, paths': seq<string>)
    requires SoundStore(w) && Plain(v) && Plain(v') && PlainFiles(files) && PlainFiles(files')
    requires (forall p :: p in paths ==> p in files) && forall p :: p in paths' ==> p in files'
    requires BucketKeyText(w, v, files, paths) == BucketKeyText(w, v', files', paths')
    ensures v == v' && paths == paths'
    ensures forall p :: p in paths ==> SameKeyFields(files[p], files'[p])
  {
    var lines, lines' := KeyLines(w, files, paths), KeyLines(w, files', paths');
    LinesHaveNoBreak(w, files, paths);
    LinesHaveNoBreak(w, files', paths');
    JoinInjective([v] + lines, [v'] + lines');
    assert v == ([v] + lines)[0] == v' && lines == ([v] + lines)[1..] == ([v'] + lines')[1..] == lines';
    forall i | 0 <= i < |paths|
      ensures paths[i] == paths'[i] && SameKeyFields(files[paths[i]], files'[paths[i]])
    {
      assert lines[i] == lines'[i];
      KeyLineInjective(w, paths[i], files[paths[i]], paths'[i], files'[paths'[i]]);
    }
  }

  lemma LinesHaveNoBreak(w: Store, files: Files, paths: seq<string>)
    requires SoundStore(w) && PlainFiles(files) && forall p :: p in paths ==> p in files
    ensures forall s :: s in KeyLines(w, files, paths) ==> '\n' !in s
  {
    forall i | 0 <= i < |paths|
      ensures '\n' !in KeyLines(w, files, paths)[i]
    {
      KeyLineHasNoBreak(w, paths[i], files[paths[i]]);
    }
  }

  lemma KeyFieldsDetermineFiles(w: Store, engine: Engine, files: Files, files': Files, paths: seq<string>)
    requires SoundEngine(engine) && ProducedFiles(engine, files) && ProducedFiles(engine, files')
    requires PlaceholderLanguages(w, files) && PlaceholderLanguages(w, files')
    requires forall p :: p in paths ==> p in files && p in files' && SameKeyFields(files[p], files'[p])
    ensures Restrict(files, paths) == Restrict(files', paths)
  {
    forall p | p in paths
      ensures files[p] == files'[p]
    {
      KeyFieldsDetermineEntry(engine, p, files[p], files'[p]);
    }
  }

  lemma EqualRootsEqualDigests(sha: string -> string, contents: map<Merkle.Path, string>, contents': map<Merkle.Path, string>,
                               directories: Directories, directories': Directories)
    requires Merkle.Collisionless(sha) && Merkle.CleanFiles(contents) && Merkle.CleanFiles(contents')
    requires [] !in contents && [] !in contents'
    requires Merkle.DirHash(sha, contents, []) == Merkle.DirHash(sha, contents', [])
    requires AreDigests(sha, contents, directories) && AreDigests(sha, contents', directories')
    ensures directories == directories'
  {
    Merkle.EqualRootsEqualContents(sha, contents, contents');
    SameDigests(sha, contents, directories, directories');
  }

  lemma SameDigests(sha: string -> string, contents: map<Merkle.Path, string>, directories: Directories, directories': Directories)
    requires AreDigests(sha, contents, directories) && AreDigests(sha, contents, directories')
    ensures directories == directories'
  {
    assert forall d :: d in directories ==> directories[d] == directories'[d];
  }

  /** Some manifest of this code has this piece. */
  ghost predicate IsPiece(w: Store, p: Piece)
    requires SoundStore(w)
  {
    exists x :: HasPiece(w, x, p)
  }

  ghost predicate HasPiece(w: Store, x: Indexed, p: Piece)
    requires SoundStore(w)
  {
    Made(w, x) && p in Pieces(w, x)
  }

  lemma PieceCases(w: Store, x: Indexed, p: Piece) returns (bucket: Option<nat>)
    requires SoundStore(w) && HasPiece(w, x, p)
    ensures bucket.Some? ==> bucket.value < SHARD_COUNT && p == BucketPiece(w, x.manifest, bucket.value)
    ensures bucket.None? ==> p == DirectoriesPieceOf(w, x)
    ensures bucket.Some? <==> p.name[0] == 'b'
  {
    if p == DirectoriesPieceOf(w, x) {
      bucket := None;
      assert p.name[0] == 'd';
    } else {
      assert p in BucketPieces(w, x.manifest, SHARD_COUNT);
      BucketPiecesAre(w, x.manifest, SHARD_COUNT);
      var b: nat :| 0 <= b < SHARD_COUNT && p == BucketPiece(w, x.manifest, b);
      bucket := Some(b);
      BucketNameStarts(w, x.manifest, b);
    }
  }

  lemma BucketNameStarts(w: Store, m: Manifest, b: nat)
    requires b < SHARD_COUNT && ListsOnce(w.sorted(m.files.Keys), m.files.Keys)
    ensures BucketPiece(w, m, b).name[0] == 'b'
  {
    assert BucketPrefix(b)[0] == 'b';
  }

  /** Pieces are content-addressed: whoever wrote a piece of some name wrote the same content. */
  lemma PieceNameDeterminesContent(w: Store, p: Piece, p': Piece)
    requires SoundStore(w) && IsPiece(w, p) && IsPiece(w, p') && p.name == p'.name
    ensures p == p'
  {
    var x :| HasPiece(w, x, p);
    var x' :| HasPiece(w, x', p');
    var bucket := PieceCases(w, x, p);
    var bucket' := PieceCases(w, x', p');
    if bucket.Some? {
      SameBucketContent(w, x, x', bucket.value, bucket'.value);
    } else {
      SameDirectoriesContent(w, x, x');
    }
  }

  lemma SameBucketContent(w: Store, x: Indexed, x': Indexed, b: nat, b': nat)
    requires SoundStore(w) && Made(w, x) && Made(w, x') && b < SHARD_COUNT && b' < SHARD_COUNT
    requires BucketPiece(w, x.manifest, b).name == BucketPiece(w, x'.manifest, b').name
    ensures BucketPiece(w, x.manifest, b).content == BucketPiece(w, x'.manifest, b').content
  {
    var v, files, v', files' := x.manifest.engineVersion, x.manifest.files, x'.manifest.engineVersion, x'.manifest.files;
    assert ListsOnce(w.sorted(files.Keys), files.Keys) && ListsOnce(w.sorted(files'.Keys), files'.Keys);
    var paths, paths' := BucketPaths(w, files, b), BucketPaths(w, files', b');
    assert w.key(BucketKeyText(w, v, files, paths)) == w.key(BucketKeyText(w, v', files', paths')) by {
      PieceFileKey(BucketPrefix(b), w.key(BucketKeyText(w, v, files, paths)),
                   BucketPrefix(b'), w.key(BucketKeyText(w, v', files', paths')));
    }
    BucketKeyTextDetermines(w, v, files, paths, v', files', paths');
    BothProduced(w, x, x');
    KeyFieldsDetermineFiles(w, w.engines(v), files, files', paths);
  }

  lemma BothProduced(w: Store, x: Indexed, x': Indexed)
    requires SoundStore(w) && Made(w, x) && Made(w, x') && x.manifest.engineVersion == x'.manifest.engineVersion
    ensures var engine := w.engines(x.manifest.engineVersion);
      SoundEngine(engine) && ProducedFiles(engine, x.manifest.files) && ProducedFiles(engine, x'.manifest.files)
  {
  }

  lemma SameDirectoriesContent(w: Store, x: Indexed, x': Indexed)
    requires SoundStore(w) && Made(w, x) && Made(w, x')
    requires DirectoriesPieceOf(w, x).name == DirectoriesPieceOf(w, x').name
    ensures DirectoriesPieceOf(w, x).content == DirectoriesPieceOf(w, x').content
  {
    var m, m' := x.manifest, x'.manifest;
    var parts, parts' := [m.engineVersion, m.rootHash], [m'.engineVersion, m'.rootHash];
    PieceFileKey("dirs-", w.key(JoinLines(parts)), "dirs-", w.key(JoinLines(parts')));
    JoinInjective(parts, parts');
    assert parts[1] == parts'[1];
    SameRootSameDirectories(w, x, x');
  }

  lemma SameRootSameDirectories(w: Store, x: Indexed, x': Indexed)
    requires SoundStore(w) && Made(w, x) && Made(w, x') && x.manifest.rootHash == x'.manifest.rootHash
    ensures x.directories == x'.directories
  {
    assert SoundEngine(w.engines(x.manifest.engineVersion));
    HashedContentsAreClean(x.manifest.files);
    HashedContentsAreClean(x'.manifest.files);
    EqualRootsEqualDigests(w.sha, HashedContents(x.manifest.files), HashedContents(x'.manifest.files), x.directories, x'.directories);
  }
}
