/** The entities of the source index that several of its algorithms share. */
module SourceIndex {
  import Merkle

  /** An absent status is `Ok`. */
  datatype ParseStatus = Ok | Quarantined | Failed

  datatype IndexedSymbol = IndexedSymbol(name: string, signature: string, lineStart: nat, lineEnd: nat, chunkIds: seq<string>)

  datatype IndexedChunk = IndexedChunk(id: string, lineStart: nat, lineEnd: nat, byteStart: nat, byteEnd: nat)

  datatype RefCount = RefCount(name: string, count: nat)

  datatype IndexedFile = IndexedFile(
    path: string,
    language: string,
    sizeBytes: nat,
    mtimeMs: int,
    contentSha256: string,
    symbols: seq<IndexedSymbol>,
    chunks: seq<IndexedChunk>,
    outgoingSymbolRefs: seq<RefCount>,
    parseStatus: ParseStatus)

  /** The cached index. Its directory digests are a function of `files` and are not repeated here. */
  datatype Manifest = Manifest(
    engineVersion: string,
    repoRootRealpath: string,
    ignoreHash: string,
    builtFromCommit: string,
    rootHash: string,
    generation: nat,
    files: map<string, IndexedFile>)

  /** The path-to-content map the directory digests are taken of. */
  ghost function HashedContents(files: map<string, IndexedFile>): (contents: map<Merkle.Path, string>)
    ensures [] !in contents
    ensures forall path :: path in files ==>
      Merkle.Split(path) in contents && contents[Merkle.Split(path)] == files[path].contentSha256
    ensures forall parts :: parts in contents ==> Merkle.Join(parts) in files
  {
    map path | path in files :: Merkle.Split(path) := files[path].contentSha256
  }

  /** The manifest's `rootHash`. */
  ghost function RootHash(sha: string -> string, files: map<string, IndexedFile>): string {
    Merkle.DirHash(sha, HashedContents(files), [])
  }

  ghost predicate CleanPaths(files: map<string, IndexedFile>) {
    forall path :: path in files ==> Merkle.Clean(path) && Merkle.Clean(files[path].contentSha256)
  }

  lemma {:induction false} SplitIsClean(path: string)
    requires Merkle.Clean(path)
    ensures forall i :: 0 <= i < |Merkle.Split(path)| ==> Merkle.Clean(Merkle.Split(path)[i])
  {
    if path != "" {
      assert forall i :: 0 <= i < |path[1..]| ==> path[1..][i] == path[i + 1];
      SplitIsClean(path[1..]);
    }
  }

  /** Two manifests with one root hash index the same paths with the same content hashes. */
  lemma RootHashIdentifiesContents(sha: string -> string, files: map<string, IndexedFile>, files': map<string, IndexedFile>)
    requires Merkle.Collisionless(sha) && CleanPaths(files) && CleanPaths(files')
    requires RootHash(sha, files) == RootHash(sha, files')
    ensures files.Keys == files'.Keys
    ensures forall path :: path in files ==> files[path].contentSha256 == files'[path].contentSha256
  {
    HashedContentsAreClean(files);
    HashedContentsAreClean(files');
    Merkle.EqualRootsEqualContents(sha, HashedContents(files), HashedContents(files'));
    forall path | path in files
      ensures path in files' && files'[path].contentSha256 == files[path].contentSha256
    {
      assert Merkle.Split(path) in HashedContents(files');
    }
    forall path | path in files'
      ensures path in files
    {
      assert Merkle.Split(path) in HashedContents(files);
    }
  }

  /** Only paths and content hashes enter the root hash. */
  lemma SameContentsSameRootHash(sha: string -> string, files: map<string, IndexedFile>, files': map<string, IndexedFile>)
    requires files.Keys == files'.Keys
    requires forall path :: path in files ==> files[path].contentSha256 == files'[path].contentSha256
    ensures RootHash(sha, files) == RootHash(sha, files')
  {
    var contents, contents' := HashedContents(files), HashedContents(files');
    forall parts | parts in contents || parts in contents'
      ensures parts in contents && parts in contents' && contents[parts] == contents'[parts]
    {
      assert Merkle.Join(parts) in files;
    }
    assert contents == contents';
  }

  lemma HashedContentsAreClean(files: map<string, IndexedFile>)
    requires CleanPaths(files)
    ensures Merkle.CleanFiles(HashedContents(files))
  {
    forall parts | parts in HashedContents(files)
      ensures Merkle.Clean(HashedContents(files)[parts])
      ensures forall i :: 0 <= i < |parts| ==> Merkle.Clean(parts[i])
    {
      var path :| path in files && Merkle.Split(path) == parts;
      SplitIsClean(path);
    }
  }
}
