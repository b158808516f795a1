/**
 * Directory digests over the indexed files (`buildDirectoryDigests`): the loops that compute them,
 * the recursive meaning of a directory's hash, and why equal root hashes mean equal contents.
 *
 * A workspace-relative POSIX path is held as the list of its `/`-separated segments; `Split` and
 * `Join` are the two directions, and the top-level directory is the empty list.
 */
module Merkle {
  type Path = seq<string>

  /** The parts of an indexed file the digests read. */
  datatype FileHash = FileHash(path: Path, contentSha256: string)

  datatype DirectoryDigest = DirectoryDigest(path: Path, childHashes: map<string, string>, hash: string)

  // ----- paths

  function Split(path: string): (parts: Path)
    ensures parts != [] && Join(parts) == path
    ensures forall i :: 0 <= i < |parts| ==> '/' !in parts[i]
  {
    if path == "" then [""]
    else
      var rest := Split(path[1..]);
      if path[0] == '/' then
        assert Join([""] + rest) == path by {
          assert ([""] + rest)[1..] == rest;
        }
        [""] + rest
      else
        assert Join([[path[0]] + rest[0]] + rest[1..]) == path by {
          assert ([[path[0]] + rest[0]] + rest[1..])[1..] == rest[1..];
        }
        [[path[0]] + rest[0]] + rest[1..]
  }

  function Join(parts: Path): string {
    if parts == [] then ""
    else if |parts| == 1 then parts[0]
    else parts[0] + "/" + Join(parts[1..])
  }

  // ----- names in code-unit order

  predicate Less(a: string, b: string) {
    b != "" && (a == "" || a[0] < b[0] || (a[0] == b[0] && Less(a[1..], b[1..])))
  }

  lemma {:induction false} LessIsStrictTotal(a: string, b: string)
    ensures !(Less(a, b) && Less(b, a)) && !Less(a, a)
    ensures a != b ==> Less(a, b) || Less(b, a)
  {
    if a != "" && b != "" {
      LessIsStrictTotal(a[1..], b[1..]);
      LessIsStrictTotal(a[1..], a[1..]);
      if a[0] == b[0] && a[1..] == b[1..] {
        assert a == [a[0]] + a[1..] == b;
      }
    } else if a != "" {
      LessIsStrictTotal(a[1..], a[1..]);
    }
  }

  lemma {:induction false} LessTransitive(a: string, b: string, c: string)
    requires Less(a, b) && Less(b, c)
    ensures Less(a, c)
  {
    if a != "" && a[0] == b[0] == c[0] {
      LessTransitive(a[1..], b[1..], c[1..]);
    }
  }

  /** The first difference decides: a smaller code unit, or the end of the text. */
  lemma {:induction false} LessAtFirstDifference(a: string, b: string)
    ensures Less(a, b) <==>
      exists i :: 0 <= i <= |a| && i < |b| && a[..i] == b[..i] && (i == |a| || a[i] < b[i])
  {
    if Less(a, b) {
      if a == "" || a[0] < b[0] {
        assert a[..0] == b[..0];
      } else {
        LessAtFirstDifference(a[1..], b[1..]);
        var i :| 0 <= i <= |a[1..]| && i < |b[1..]| && a[1..][..i] == b[1..][..i] && (i == |a[1..]| || a[1..][i] < b[1..][i]);
        assert a[..i + 1] == [a[0]] + a[1..][..i] && b[..i + 1] == [b[0]] + b[1..][..i];
        assert i + 1 == |a| || a[i + 1] < b[i + 1];
      }
    }
    if i :| 0 <= i <= |a| && i < |b| && a[..i] == b[..i] && (i == |a| || a[i] < b[i]) {
      if i > 0 {
        LessAtFirstDifference(a[1..], b[1..]);
        assert a[..i][0] == b[..i][0];
        assert a[1..][..i - 1] == a[..i][1..] == b[1..][..i - 1];
        assert i - 1 == |a[1..]| || a[1..][i - 1] < b[1..][i - 1];
      }
    }
  }

  // ----- the sorted child entries of one directory

  /** One hashed line. Whether it stands for a file or a subdirectory is not part of the line. */
  datatype Entry = Entry(name: string, isDirectory: bool, hash: string)

  /** File entries come before the directory entry of the same name. */
  ghost predicate Before(e: Entry, f: Entry) {
    Less(e.name, f.name) || (e.name == f.name && !e.isDirectory && f.isDirectory)
  }

  lemma BeforeIsStrictOrder(e: Entry, f: Entry, g: Entry)
    ensures !Before(e, e)
    ensures Before(e, f) && Before(f, g) ==> Before(e, g)
    ensures Before(e, f) ==> !Before(f, e)
  {
    LessIsStrictTotal(e.name, e.name);
    LessIsStrictTotal(e.name, f.name);
    if Less(e.name, f.name) && Less(f.name, g.name) {
      LessTransitive(e.name, f.name, g.name);
    }
  }

  ghost predicate Increasing(entries: seq<Entry>) {
    forall i, j :: 0 <= i < j < |entries| ==> Before(entries[i], entries[j])
  }

  /** `entries` lists, in order, exactly the files and subdirectories of one directory. */
  ghost predicate Lists(entries: seq<Entry>, files: map<string, string>, subdirs: map<string, string>) {
    && Increasing(entries)
    && forall e :: e in entries <==>
         if e.isDirectory then e.name in subdirs && subdirs[e.name] == e.hash
         else e.name in files && files[e.name] == e.hash
  }

  lemma {:induction false} IncreasingIsUnique(a: seq<Entry>, b: seq<Entry>)
    requires Increasing(a) && Increasing(b) && forall e :: e in a <==> e in b
    ensures a == b
  {
    if a == [] {
      assert forall i :: 0 <= i < |b| ==> b[i] in b;
    } else {
      assert a[0] in b;
      var i :| 0 <= i < |b| && b[i] == a[0];
      assert b[0] in a;
      var j :| 0 <= j < |a| && a[j] == b[0];
      BeforeIsStrictOrder(a[0], b[0], a[0]);
      BeforeIsStrictOrder(a[0], a[0], a[0]);
      assert i == 0 && j == 0;
      forall e
        ensures e in a[1..] <==> e in b[1..]
      {
        RestExcludesFirst(a, e);
        RestExcludesFirst(b, e);
      }
      IncreasingIsUnique(a[1..], b[1..]);
      assert a == [a[0]] + a[1..] && b == [b[0]] + b[1..];
    }
  }

  lemma RestExcludesFirst(a: seq<Entry>, e: Entry)
    requires a != [] && Increasing(a)
    ensures e in a[1..] <==> e in a && e != a[0]
  {
    if e in a[1..] {
      var k :| 0 <= k < |a[1..]| && a[1..][k] == e;
      assert a[k + 1] == e;
      BeforeIsStrictOrder(a[0], a[0], a[0]);
    }
    if e in a && e != a[0] {
      var k :| 0 <= k < |a| && a[k] == e;
      assert a[1..][k - 1] == e;
    }
  }

  lemma ListsIsUnique(a: seq<Entry>, b: seq<Entry>, files: map<string, string>, subdirs: map<string, string>)
    requires Lists(a, files, subdirs) && Lists(b, files, subdirs)
    ensures a == b
  {
    IncreasingIsUnique(a, b);
  }

  /** Where a stable sort by name puts an element that follows all of `sorted` in the input. */
  function InsertStable(sorted: seq<Entry>, e: Entry): seq<Entry> {
    if sorted == [] then [e]
    else if Less(e.name, sorted[|sorted| - 1].name) then InsertStable(sorted[..|sorted| - 1], e) + [sorted[|sorted| - 1]]
    else sorted + [e]
  }

  lemma {:induction false} InsertStableMembers(sorted: seq<Entry>, e: Entry)
    ensures forall f :: f in InsertStable(sorted, e) <==> f in sorted || f == e
  {
    if sorted != [] && Less(e.name, sorted[|sorted| - 1].name) {
      InsertStableMembers(sorted[..|sorted| - 1], e);
      assert sorted == sorted[..|sorted| - 1] + [sorted[|sorted| - 1]];
    }
  }

  lemma {:induction false} InsertStableIncreasing(sorted: seq<Entry>, e: Entry)
    requires Increasing(sorted)
    requires forall f :: f in sorted && f.name == e.name ==> Before(f, e)
    ensures Increasing(InsertStable(sorted, e))
  {
    if sorted != [] {
      var init, last := sorted[..|sorted| - 1], sorted[|sorted| - 1];
      if Less(e.name, last.name) {
        InsertStableIncreasing(init, e);
        InsertStableMembers(init, e);
        var rest := InsertStable(init, e);
        forall i, j | 0 <= i < j < |rest| + 1
          ensures Before((rest + [last])[i], (rest + [last])[j])
        {
          if j == |rest| {
            assert rest[i] in rest;
            if rest[i] != e {
              var k :| 0 <= k < |init| && init[k] == rest[i];
              assert Before(sorted[k], sorted[|sorted| - 1]);
            }
          }
        }
      } else {
        LessIsStrictTotal(e.name, last.name);
        assert last in sorted;
        assert Before(last, e);
        forall i | 0 <= i < |sorted|
          ensures Before(sorted[i], e)
        {
          BeforeIsStrictOrder(sorted[i], last, e);
        }
      }
    }
  }

  lemma InsertFile(entries: seq<Entry>, files: map<string, string>, name: string, hash: string)
    requires Lists(entries, files, map[]) && name !in files
    ensures Lists(InsertStable(entries, Entry(name, false, hash)), files[name := hash], map[])
  {
    InsertStableMembers(entries, Entry(name, false, hash));
    InsertStableIncreasing(entries, Entry(name, false, hash));
  }

  lemma InsertSubdir(entries: seq<Entry>, files: map<string, string>, subdirs: map<string, string>, name: string, hash: string)
    requires Lists(entries, files, subdirs) && name !in subdirs
    ensures Lists(InsertStable(entries, Entry(name, true, hash)), files, subdirs[name := hash])
  {
    InsertStableMembers(entries, Entry(name, true, hash));
    InsertStableIncreasing(entries, Entry(name, true, hash));
  }

  lemma {:induction false} EntriesExist(files: map<string, string>, subdirs: map<string, string>) returns (entries: seq<Entry>)
    ensures Lists(entries, files, subdirs)
    decreases |files| + |subdirs|
  {
    if subdirs != map[] {
      var name :| name in subdirs;
      var fewer := subdirs - {name};
      entries := EntriesExist(files, fewer);
      InsertSubdir(entries, files, fewer, name, subdirs[name]);
      entries := InsertStable(entries, Entry(name, true, subdirs[name]));
      assert fewer[name := subdirs[name]] == subdirs;
    } else if files != map[] {
      var name :| name in files;
      var fewer := files - {name};
      entries := EntriesExist(fewer, map[]);
      InsertFile(entries, fewer, name, files[name]);
      entries := InsertStable(entries, Entry(name, false, files[name]));
      assert fewer[name := files[name]] == files;
    } else {
      entries := [];
    }
  }

  lemma SortedEntriesExist(files: map<string, string>, subdirs: map<string, string>)
    ensures exists entries :: Lists(entries, files, subdirs)
  {
    var entries := EntriesExist(files, subdirs);
  }

  ghost function SortedEntries(files: map<string, string>, subdirs: map<string, string>): (entries: seq<Entry>)
    ensures Lists(entries, files, subdirs)
  {
    SortedEntriesExist(files, subdirs);
    var entries :| Lists(entries, files, subdirs);
    entries
  }

  function StableSort(entries: seq<Entry>): seq<Entry> {
    if entries == [] then [] else InsertStable(StableSort(entries[..|entries| - 1]), entries[|entries| - 1])
  }

  // ----- the hashed text

  function Line(e: Entry): string {
    e.name + "\t" + e.hash + "\n"
  }

  /** The text a directory's hash is taken of. */
  function HashInput(entries: seq<Entry>): string {
    if entries == [] then "" else Line(entries[0]) + HashInput(entries[1..])
  }

  predicate Clean(s: string) {
    '\t' !in s && '\n' !in s
  }

  lemma CutAtFirst(c: char, x: string, x': string, y: string, y': string)
    requires c !in x && c !in y && x + [c] + x' == y + [c] + y'
    ensures x == y && x' == y'
  {
    var z := x + [c] + x';
    assert z[|x|] == c && (y + [c] + y')[|y|] == c;
    assert forall i :: 0 <= i < |x| ==> z[i] == x[i] != c;
    assert forall i :: 0 <= i < |y| ==> (y + [c] + y')[i] == y[i] != c;
    assert |x| == |y|;
    assert x == z[..|x|] && y == z[..|y|];
    assert x' == z[|x| + 1..] && y' == z[|y| + 1..];
  }

  /** With clean names and hashes the lines can be read back. */
  lemma {:induction false} LinesDetermineEntries(a: seq<Entry>, b: seq<Entry>)
    requires forall e :: e in a || e in b ==> Clean(e.name) && Clean(e.hash)
    requires HashInput(a) == HashInput(b)
    ensures |a| == |b|
    ensures forall i :: 0 <= i < |a| ==> a[i].name == b[i].name && a[i].hash == b[i].hash
  {
    if a != [] && b != [] {
      var e, f := a[0], b[0];
      var restA, restB := HashInput(a[1..]), HashInput(b[1..]);
      assert e.name + ['\t'] + (e.hash + ['\n'] + restA) == HashInput(a);
      assert f.name + ['\t'] + (f.hash + ['\n'] + restB) == HashInput(b);
      CutAtFirst('\t', e.name, e.hash + ['\n'] + restA, f.name, f.hash + ['\n'] + restB);
      CutAtFirst('\n', e.hash, restA, f.hash, restB);
      LinesDetermineEntries(a[1..], b[1..]);
    }
  }

  // ----- the meaning of a directory's hash

  /** `hash` never maps two texts to one digest, and its digests fit in a line. */
  ghost predicate Collisionless(sha: string -> string) {
    && (forall x, y :: sha(x) == sha(y) ==> x == y)
    && forall x :: Clean(sha(x))
  }

  /** The names directly under `d`: every path below `d` contributes one, a file as much as a directory. */
  ghost function Names(files: map<Path, string>, d: Path): set<string> {
    set p | p in files && d < p :: p[|d|]
  }

  ghost function FilesAt(files: map<Path, string>, d: Path): map<string, string> {
    map n | n in Names(files, d) && d + [n] in files :: files[d + [n]]
  }

  ghost function MaxLength(paths: set<Path>): (n: nat)
    ensures forall p :: p in paths ==> |p| <= n
  {
    if paths == {} then 0
    else
      var p :| p in paths;
      var n := MaxLength(paths - {p});
      if |p| <= n then n else |p|
  }

  ghost function Height(files: map<Path, string>, d: Path): nat {
    if |d| <= MaxLength(files.Keys) then MaxLength(files.Keys) - |d| else 0
  }

  lemma ChildIsLower(files: map<Path, string>, d: Path, n: string)
    requires n in Names(files, d)
    ensures Height(files, d + [n]) < Height(files, d)
  {
    var p :| p in files && d < p && p[|d|] == n;
  }

  ghost function SubdirHashes(sha: string -> string, files: map<Path, string>, d: Path): (hashes: map<string, string>)
    ensures hashes.Keys == Names(files, d)
    decreases Height(files, d), 0
  {
    map n | n in Names(files, d) :: ChildIsLower(files, d, n); DirHash(sha, files, d + [n])
  }

  ghost function DirHash(sha: string -> string, files: map<Path, string>, d: Path): string
    decreases Height(files, d), 1
  {
    sha(HashInput(SortedEntries(FilesAt(files, d), SubdirHashes(sha, files, d))))
  }

  /** The hashes `hashes` gives the names under `d`. */
  ghost function HashesBelow(files: map<Path, string>, d: Path, hashes: Path -> string): map<string, string> {
    map n | n in Names(files, d) :: hashes(d + [n])
  }

  /** `hashes` is computed bottom-up. */
  ghost predicate Hashing(sha: string -> string, files: map<Path, string>, hashes: Path -> string) {
    forall d :: HashedAt(sha, files, hashes, d)
  }

  ghost predicate HashedAt(sha: string -> string, files: map<Path, string>, hashes: Path -> string, d: Path) {
    hashes(d) == sha(HashInput(SortedEntries(FilesAt(files, d), HashesBelow(files, d, hashes))))
  }

  ghost function Hashes(sha: string -> string, files: map<Path, string>): Path -> string {
    d => DirHash(sha, files, d)
  }

  /** A directory without files. */
  lemma EmptyDirectory(sha: string -> string, files: map<Path, string>, d: Path)
    requires forall p :: p in files ==> !(d < p)
    ensures DirHash(sha, files, d) == sha("")
  {
    var entries := SortedEntries(FilesAt(files, d), SubdirHashes(sha, files, d));
    IncreasingIsUnique(entries, []);
  }

  /**
   * A directory that holds one file and nothing else hashes two lines of its name, one with the hash of the file's
   * content and one with that of the directory its path is registered as, which is empty.
   */
  lemma OneFileDirectory(sha: string -> string, files: map<Path, string>, d: Path, name: string)
    requires d + [name] in files && forall p :: p in files && d < p ==> p == d + [name]
    ensures DirHash(sha, files, d) == sha(name + "\t" + files[d + [name]] + "\n" + (name + "\t" + sha("") + "\n"))
  {
    var file, subdir := Entry(name, false, files[d + [name]]), Entry(name, true, sha(""));
    EmptyDirectory(sha, files, d + [name]);
    assert d < d + [name];
    assert FilesAt(files, d) == map[name := files[d + [name]]] && SubdirHashes(sha, files, d) == map[name := sha("")];
    var entries := SortedEntries(FilesAt(files, d), SubdirHashes(sha, files, d));
    LessIsStrictTotal(name, name);
    assert Increasing([file, subdir]);
    IncreasingIsUnique(entries, [file, subdir]);
    TwoLines(file, subdir);
  }

  lemma TwoLines(e: Entry, f: Entry)
    ensures HashInput([e, f]) == Line(e) + Line(f)
  {
    assert [e, f][1..] == [f] && [f][1..] == [];
    assert HashInput([f]) == Line(f) + "" == Line(f);
  }

  lemma DirHashIsHashing(sha: string -> string, files: map<Path, string>)
    ensures Hashing(sha, files, Hashes(sha, files))
    ensures forall d :: SubdirHashes(sha, files, d) == HashesBelow(files, d, Hashes(sha, files))
  {
    forall d
      ensures SubdirHashes(sha, files, d) == HashesBelow(files, d, Hashes(sha, files))
    {
      SubdirHashesAreBelow(sha, files, d);
    }
    assert forall d :: HashedAt(sha, files, Hashes(sha, files), d);
  }

  lemma SubdirHashesAreBelow(sha: string -> string, files: map<Path, string>, d: Path)
    ensures SubdirHashes(sha, files, d) == HashesBelow(files, d, Hashes(sha, files))
  {
  }

  ghost predicate CleanFiles(files: map<Path, string>) {
    forall p :: p in files ==> Clean(files[p]) && forall i :: 0 <= i < |p| ==> Clean(p[i])
  }

  lemma EntriesAreClean(sha: string -> string, files: map<Path, string>, d: Path, e: Entry)
    requires Collisionless(sha) && CleanFiles(files)
    requires e in SortedEntries(FilesAt(files, d), SubdirHashes(sha, files, d))
    ensures Clean(e.name) && Clean(e.hash)
  {
    assert e.name in Names(files, d);
    var p :| p in files && d < p && p[|d|] == e.name;
    if e.isDirectory {
      assert e.hash == DirHash(sha, files, d + [e.name]);
    }
  }

  /** Lines read back identify which names are files: a file's name carries a directory line as well. */
  lemma EntriesAgree(a: seq<Entry>, b: seq<Entry>, files: map<string, string>, subdirs: map<string, string>,
                     files': map<string, string>, subdirs': map<string, string>)
    requires Lists(a, files, subdirs) && Lists(b, files', subdirs')
    requires files.Keys <= subdirs.Keys && files'.Keys <= subdirs'.Keys
    requires |a| == |b|
    requires forall i :: 0 <= i < |a| ==> a[i].name == b[i].name && a[i].hash == b[i].hash
    ensures a == b
  {
    forall i | 0 <= i < |a|
      ensures a[i] == b[i]
    {
      FileNameFollowed(a, files, subdirs, i);
      FileNameFollowed(b, files', subdirs', i);
    }
  }

  /** A line stands for a file exactly when the next line has the same name. */
  lemma FileNameFollowed(a: seq<Entry>, files: map<string, string>, subdirs: map<string, string>, i: nat)
    requires Lists(a, files, subdirs) && files.Keys <= subdirs.Keys && i < |a|
    ensures !a[i].isDirectory <==> i + 1 < |a| && a[i + 1].name == a[i].name
  {
    LessIsStrictTotal(a[i].name, a[i].name);
    if i + 1 < |a| && a[i + 1].name == a[i].name {
      assert Before(a[i], a[i + 1]);
    }
    if !a[i].isDirectory {
      assert a[i] in a;
      var e := Entry(a[i].name, true, subdirs[a[i].name]);
      assert e in a;
      var j :| 0 <= j < |a| && a[j] == e;
      if j < i {
        assert Before(a[j], a[i]);
      } else if j > i + 1 {
        assert Before(a[i], a[i + 1]) && Before(a[i + 1], a[j]);
        var m := a[i + 1].name;
        LessIsStrictTotal(a[i].name, m);
      }
    }
  }

  lemma {:induction false} EqualHashesEqualSubtrees(sha: string -> string, files: map<Path, string>, files': map<Path, string>,
                                                    d: Path, p: Path)
    requires Collisionless(sha) && CleanFiles(files) && CleanFiles(files')
    requires DirHash(sha, files, d) == DirHash(sha, files', d)
    requires p in files && d < p
    ensures p in files' && files'[p] == files[p]
    decreases |p| - |d|
  {
    var n := p[|d|];
    EqualHashesEqualChildren(sha, files, files', d, n);
    if p != d + [n] {
      assert d + [n] <= p;
      EqualHashesEqualSubtrees(sha, files, files', d + [n], p);
    }
  }

  /** One level: a name under `d` is the same file, and has the same subdirectory hash. */
  lemma EqualHashesEqualChildren(sha: string -> string, files: map<Path, string>, files': map<Path, string>, d: Path, n: string)
    requires Collisionless(sha) && CleanFiles(files) && CleanFiles(files')
    requires DirHash(sha, files, d) == DirHash(sha, files', d)
    requires exists p :: p in files && d < p && p[|d|] == n
    ensures DirHash(sha, files, d + [n]) == DirHash(sha, files', d + [n])
    ensures d + [n] in files ==> d + [n] in files' && files'[d + [n]] == files[d + [n]]
  {
    assert n in Names(files, d);
    EqualHashesEqualEntries(sha, files, files', d);
    SameEntriesSameMaps(FilesAt(files, d), SubdirHashes(sha, files, d), FilesAt(files', d), SubdirHashes(sha, files', d));
    assert n in SubdirHashes(sha, files, d);
    FilesAtMember(files, d, n);
    FilesAtMember(files', d, n);
  }

  lemma SameEntriesSameMaps(files: map<string, string>, subdirs: map<string, string>,
                            files': map<string, string>, subdirs': map<string, string>)
    requires SortedEntries(files, subdirs) == SortedEntries(files', subdirs')
    ensures files == files' && subdirs == subdirs'
  {
    var a := SortedEntries(files, subdirs);
    assert Lists(a, files', subdirs');
    forall n
      ensures n in files <==> n in files'
      ensures n in files ==> files[n] == files'[n]
      ensures n in subdirs <==> n in subdirs'
      ensures n in subdirs ==> subdirs[n] == subdirs'[n]
    {
      assert n in files ==> Entry(n, false, files[n]) in a;
      assert n in files' ==> Entry(n, false, files'[n]) in a;
      assert n in subdirs ==> Entry(n, true, subdirs[n]) in a;
      assert n in subdirs' ==> Entry(n, true, subdirs'[n]) in a;
    }
  }

  lemma EqualHashesEqualEntries(sha: string -> string, files: map<Path, string>, files': map<Path, string>, d: Path)
    requires Collisionless(sha) && CleanFiles(files) && CleanFiles(files')
    requires DirHash(sha, files, d) == DirHash(sha, files', d)
    ensures SortedEntries(FilesAt(files, d), SubdirHashes(sha, files, d))
         == SortedEntries(FilesAt(files', d), SubdirHashes(sha, files', d))
  {
    var a := SortedEntries(FilesAt(files, d), SubdirHashes(sha, files, d));
    var b := SortedEntries(FilesAt(files', d), SubdirHashes(sha, files', d));
    forall e | e in a || e in b
      ensures Clean(e.name) && Clean(e.hash)
    {
      if e in a {
        EntriesAreClean(sha, files, d, e);
      } else {
        EntriesAreClean(sha, files', d, e);
      }
    }
    LinesDetermineEntries(a, b);
    EntriesAgree(a, b, FilesAt(files, d), SubdirHashes(sha, files, d), FilesAt(files', d), SubdirHashes(sha, files', d));
  }

  /** Equal root hashes mean equal path-to-content maps: the root hash identifies the indexed contents. */
  lemma EqualRootsEqualContents(sha: string -> string, files: map<Path, string>, files': map<Path, string>)
    requires Collisionless(sha) && CleanFiles(files) && CleanFiles(files')
    requires [] !in files && [] !in files'
    requires DirHash(sha, files, []) == DirHash(sha, files', [])
    ensures files == files'
  {
    forall p | p in files
      ensures p in files' && files'[p] == files[p]
    {
      EqualHashesEqualSubtrees(sha, files, files', [], p);
    }
    forall p | p in files'
      ensures p in files
    {
      EqualHashesEqualSubtrees(sha, files', files, [], p);
    }
  }

  // ----- the loops

  /** The path-to-content map of a file list; a repeated path keeps its last content. */
  function Contents(files: seq<FileHash>): map<Path, string> {
    if files == [] then map[]
    else Contents(files[..|files| - 1])[files[|files| - 1].path := files[|files| - 1].contentSha256]
  }

  lemma {:induction false} ContentsMembers(files: seq<FileHash>)
    requires forall i, j :: 0 <= i < j < |files| ==> files[i].path != files[j].path
    ensures forall p, c :: p in Contents(files) && Contents(files)[p] == c <==> FileHash(p, c) in files
  {
    if files != [] {
      var init, last := files[..|files| - 1], files[|files| - 1];
      ContentsMembers(init);
      assert files == init + [last];
      assert forall i :: 0 <= i < |init| ==> files[i] == init[i] && init[i].path != last.path;
      ContentsOneMore(Contents(init), init, last);
    }
  }

  lemma ContentsOneMore(contents: map<Path, string>, init: seq<FileHash>, last: FileHash)
    requires forall p, c :: p in contents && contents[p] == c <==> FileHash(p, c) in init
    requires forall i :: 0 <= i < |init| ==> init[i].path != last.path
    ensures var more := contents[last.path := last.contentSha256];
      forall p, c :: p in more && more[p] == c <==> FileHash(p, c) in init + [last]
  {
  }

  /** With distinct paths the digests do not depend on the order of the input. */
  lemma ContentsIgnoreOrder(files: seq<FileHash>, shuffled: seq<FileHash>)
    requires forall i, j :: 0 <= i < j < |files| ==> files[i].path != files[j].path
    requires forall i, j :: 0 <= i < j < |shuffled| ==> shuffled[i].path != shuffled[j].path
    requires forall f :: f in files <==> f in shuffled
    ensures Contents(files) == Contents(shuffled)
  {
    ContentsMembers(files);
    ContentsMembers(shuffled);
    forall p | p in Contents(files) || p in Contents(shuffled)
      ensures p in Contents(files) && p in Contents(shuffled) && Contents(files)[p] == Contents(shuffled)[p]
    {
      if p in Contents(files) {
        assert FileHash(p, Contents(files)[p]) in shuffled;
      } else {
        assert FileHash(p, Contents(shuffled)[p]) in files;
      }
    }
  }

  /** The top-level directory and every prefix of a path: also the path of each file itself. */
  ghost predicate Registered(files: map<Path, string>, d: Path) {
    d == [] || exists p :: p in files && d <= p
  }

  lemma NamesAreRegistered(files: map<Path, string>, d: Path, n: string)
    ensures n in Names(files, d) <==> Registered(files, d + [n])
  {
    if n in Names(files, d) {
      var p :| p in files && d < p && p[|d|] == n;
      assert d + [n] <= p;
    }
    if Registered(files, d + [n]) {
      var p :| p in files && d + [n] <= p;
      assert d < p && p[|d|] == n;
    }
  }

  ghost predicate FileChildrenOf(dirFileChildren: map<Path, map<string, string>>, files: map<Path, string>) {
    && (forall d :: d in dirFileChildren <==> Registered(files, d))
    && forall d :: d in dirFileChildren ==> dirFileChildren[d] == FilesAt(files, d)
  }

  /** Step 1 for one file: register its ancestors and itself, then file it under its parent. */
  method RegisterFile(dirFileChildren: map<Path, map<string, string>>, file: FileHash, ghost files: map<Path, string>)
    returns (updated: map<Path, map<string, string>>)
    requires file.path != [] && FileChildrenOf(dirFileChildren, files)
    ensures FileChildrenOf(updated, files[file.path := file.contentSha256])
  {
    var parent, name := file.path[..|file.path| - 1], file.path[|file.path| - 1];
    var registered := RegisterAncestors(dirFileChildren, file.path);
    AncestorsRegistered(dirFileChildren, registered, file, files);
    updated := registered[parent := registered[parent][name := file.contentSha256]];
  }

  method RegisterAncestors(dirFileChildren: map<Path, map<string, string>>, parts: Path)
    returns (updated: map<Path, map<string, string>>)
    ensures forall d :: d in updated <==> d in dirFileChildren || d <= parts
    ensures forall d :: d in updated ==> updated[d] == if d in dirFileChildren then dirFileChildren[d] else map[]
  {
    updated := dirFileChildren;
    for i := 0 to |parts| + 1
      invariant forall d :: d in updated <==> d in dirFileChildren || (d <= parts && |d| < i)
      invariant forall d :: d in updated ==> updated[d] == if d in dirFileChildren then dirFileChildren[d] else map[]
    {
      assert forall d :: d <= parts && |d| == i ==> d == parts[..i];
      if parts[..i] !in updated {
        updated := updated[parts[..i] := map[]];
      }
    }
  }

  lemma AncestorsRegistered(before: map<Path, map<string, string>>, after: map<Path, map<string, string>>, file: FileHash,
                            files: map<Path, string>)
    requires file.path != [] && FileChildrenOf(before, files)
    requires forall d :: d in after <==> d in before || d <= file.path
    requires forall d :: d in after ==> after[d] == if d in before then before[d] else map[]
    ensures var parent, name := file.path[..|file.path| - 1], file.path[|file.path| - 1];
      && parent in after
      && FileChildrenOf(after[parent := after[parent][name := file.contentSha256]], files[file.path := file.contentSha256])
  {
    var parent, name := file.path[..|file.path| - 1], file.path[|file.path| - 1];
    assert parent <= file.path;
    var files' := files[file.path := file.contentSha256];
    var after' := after[parent := after[parent][name := file.contentSha256]];
    forall d
      ensures d in after' <==> Registered(files', d)
    {
      RegisteredAfter(files, file, d);
    }
    forall d | d in after'
      ensures after'[d] == FilesAt(files', d)
    {
      FilesAtAfter(files, file, d);
      if d !in before {
        UnregisteredHasNoFiles(files, d);
      }
    }
  }

  lemma UnregisteredHasNoFiles(files: map<Path, string>, d: Path)
    requires !Registered(files, d)
    ensures FilesAt(files, d) == map[]
  {
    forall n
      ensures n !in FilesAt(files, d)
    {
      if d + [n] in files {
        assert d <= d + [n];
      }
    }
  }

  lemma RegisteredAfter(files: map<Path, string>, file: FileHash, d: Path)
    requires file.path != []
    ensures Registered(files[file.path := file.contentSha256], d) <==> Registered(files, d) || d <= file.path
  {
    var files' := files[file.path := file.contentSha256];
    if d <= file.path {
      assert file.path in files';
    }
    if p :| p in files && d <= p {
      assert p in files';
    }
  }

  lemma FilesAtAfter(files: map<Path, string>, file: FileHash, d: Path)
    requires file.path != []
    ensures FilesAt(files[file.path := file.contentSha256], d) ==
            if d == file.path[..|file.path| - 1] then FilesAt(files, d)[file.path[|file.path| - 1] := file.contentSha256]
            else FilesAt(files, d)
  {
    var files' := files[file.path := file.contentSha256];
    var parent, name := file.path[..|file.path| - 1], file.path[|file.path| - 1];
    assert file.path == parent + [name];
    forall n
      ensures n in FilesAt(files', d) <==> n in FilesAt(files, d) || (d == parent && n == name)
    {
      FilesAtMember(files, d, n);
      FilesAtMember(files', d, n);
      assert (d + [n])[..|d|] == d && (d + [n])[|d|] == n;
    }
    forall n | n in FilesAt(files', d) && !(d == parent && n == name)
      ensures FilesAt(files', d)[n] == FilesAt(files, d)[n]
    {
      assert (d + [n])[..|d|] == d && (d + [n])[|d|] == n;
    }
  }

  lemma FilesAtMember(files: map<Path, string>, d: Path, n: string)
    ensures n in FilesAt(files, d) <==> d + [n] in files
  {
    if d + [n] in files {
      assert d < d + [n] && (d + [n])[|d|] == n;
    }
  }

  /** The last segments of the directories of `done` whose parent is `d`. */
  ghost function ChildNames(done: set<Path>, d: Path): set<string> {
    set dir | dir in done && dir != [] && dir[..|dir| - 1] == d :: dir[|dir| - 1]
  }

  lemma ChildNamesAdd(done: set<Path>, dir: Path, d: Path)
    ensures ChildNames(done + {dir}, d) ==
      if dir != [] && dir[..|dir| - 1] == d then ChildNames(done, d) + {dir[|dir| - 1]} else ChildNames(done, d)
  {
  }

  lemma ChildNamesAreNames(dirs: set<Path>, files: map<Path, string>, d: Path)
    requires forall d :: d in dirs <==> Registered(files, d)
    ensures ChildNames(dirs, d) == Names(files, d)
  {
    forall n
      ensures n in ChildNames(dirs, d) <==> n in Names(files, d)
    {
      NamesAreRegistered(files, d, n);
      ChildNamesMember(dirs, d, n);
    }
  }

  lemma ChildNamesMember(dirs: set<Path>, d: Path, n: string)
    ensures n in ChildNames(dirs, d) <==> d + [n] in dirs
  {
    if n in ChildNames(dirs, d) {
      var dir :| dir in dirs && dir != [] && dir[..|dir| - 1] == d && dir[|dir| - 1] == n;
      assert dir == d + [n];
    }
    var child := d + [n];
    assert child[..|child| - 1] == d && child[|child| - 1] == n;
  }

  ghost predicate SubdirsOf(dirSubdirChildren: map<Path, set<string>>, done: set<Path>) {
    && (forall d :: d in dirSubdirChildren ==> dirSubdirChildren[d] == ChildNames(done, d))
    && forall dir :: dir in done ==> dir in dirSubdirChildren && (dir != [] ==> dir[..|dir| - 1] in dirSubdirChildren)
  }

  /** Step 2: every registered directory is a child of its parent. */
  method RegisterSubdirs(dirs: set<Path>, ghost files: map<Path, string>) returns (dirSubdirChildren: map<Path, set<string>>)
    requires forall d :: d in dirs <==> Registered(files, d)
    ensures dirs <= dirSubdirChildren.Keys
    ensures forall d :: d in dirs ==> dirSubdirChildren[d] == Names(files, d)
  {
    dirSubdirChildren := map[];
    var pending := dirs;
    while pending != {}
      invariant pending <= dirs && SubdirsOf(dirSubdirChildren, dirs - pending)
    {
      var dir :| dir in pending;
      dirSubdirChildren := RegisterSubdir(dirSubdirChildren, dir, dirs - pending);
      assert (dirs - pending) + {dir} == dirs - (pending - {dir});
      pending := pending - {dir};
    }
    assert dirs - pending == dirs;
    forall d | d in dirs
      ensures dirSubdirChildren[d] == Names(files, d)
    {
      ChildNamesAreNames(dirs, files, d);
    }
  }

  method RegisterSubdir(dirSubdirChildren: map<Path, set<string>>, dir: Path, ghost done: set<Path>)
    returns (updated: map<Path, set<string>>)
    requires SubdirsOf(dirSubdirChildren, done)
    ensures SubdirsOf(updated, done + {dir})
  {
    updated := dirSubdirChildren;
    forall d
      ensures d !in updated ==> ChildNames(done, d) == {}
    {
    }
    if dir !in updated {
      updated := updated[dir := {}];
    }
    if dir != [] {
      var parent, name := dir[..|dir| - 1], dir[|dir| - 1];
      if parent !in updated {
        updated := updated[parent := {}];
      }
      updated := updated[parent := updated[parent] + {name}];
    }
    forall d | d in updated
      ensures updated[d] == ChildNames(done + {dir}, d)
    {
      ChildNamesAdd(done, dir, d);
    }
  }

  /** The library's sort of the directories, deepest first. */
  method DeepestFirst(dirs: set<Path>) returns (sorted: seq<Path>)
    ensures forall d :: d in sorted <==> d in dirs
    ensures forall i, j :: 0 <= i < j < |sorted| ==> |sorted[i]| >= |sorted[j]| && sorted[i] != sorted[j]
  {
    sorted := [];
    var rest := dirs;
    while rest != {}
      invariant rest <= dirs && forall d :: d in sorted <==> d in dirs - rest
      invariant forall i, d :: 0 <= i < |sorted| && d in rest ==> |sorted[i]| >= |d|
      invariant forall i, j :: 0 <= i < j < |sorted| ==> |sorted[i]| >= |sorted[j]| && sorted[i] != sorted[j]
    {
      DeepestExists(rest);
      var deepest :| deepest in rest && forall d :: d in rest ==> |d| <= |deepest|;
      assert deepest !in sorted;
      sorted := sorted + [deepest];
      rest := rest - {deepest};
    }
  }

  lemma {:induction false} DeepestExists(dirs: set<Path>)
    requires dirs != {}
    ensures exists deepest :: deepest in dirs && forall d :: d in dirs ==> |d| <= |deepest|
  {
    var d :| d in dirs;
    if dirs - {d} != {} {
      DeepestExists(dirs - {d});
      var e :| e in dirs - {d} && forall x :: x in dirs - {d} ==> |x| <= |e|;
      var deepest := if |e| >= |d| then e else d;
      assert deepest in dirs && forall x :: x in dirs ==> x == d || x in dirs - {d};
    } else {
      assert forall x :: x in dirs ==> x == d || x in dirs - {d};
    }
  }

  /** One directory's hash: file entries first, then subdirectories by the hashes already computed. */
  method HashDirectory(sha: string -> string, dir: Path, fileChildren: map<string, string>, subdirChildren: set<string>,
                       dirHashes: map<Path, string>, ghost subdirHashes: map<string, string>)
    returns (hash: string)
    requires subdirHashes.Keys == subdirChildren
    requires forall n :: n in subdirChildren ==> dir + [n] in dirHashes && dirHashes[dir + [n]] == subdirHashes[n]
    ensures hash == sha(HashInput(SortedEntries(fileChildren, subdirHashes)))
  {
    var entries: seq<Entry> := [];
    var pendingFiles := fileChildren.Keys;
    while pendingFiles != {}
      invariant pendingFiles <= fileChildren.Keys
      invariant Lists(StableSort(entries), fileChildren - pendingFiles, map[])
    {
      var name :| name in pendingFiles;
      InsertFile(StableSort(entries), fileChildren - pendingFiles, name, fileChildren[name]);
      assert (fileChildren - pendingFiles)[name := fileChildren[name]] == fileChildren - (pendingFiles - {name});
      entries := entries + [Entry(name, false, fileChildren[name])];
      pendingFiles := pendingFiles - {name};
    }
    assert fileChildren - pendingFiles == fileChildren;
    assert subdirHashes - subdirChildren == map[];
    var pendingSubdirs := subdirChildren;
    while pendingSubdirs != {}
      invariant pendingSubdirs <= subdirChildren
      invariant Lists(StableSort(entries), fileChildren, subdirHashes - pendingSubdirs)
    {
      var name :| name in pendingSubdirs;
      // Every subdirectory is deeper, so its hash is known: the source's fallback is never taken.
      var childHash := if dir + [name] in dirHashes then dirHashes[dir + [name]] else sha("");
      InsertSubdir(StableSort(entries), fileChildren, subdirHashes - pendingSubdirs, name, childHash);
      assert (subdirHashes - pendingSubdirs)[name := childHash] == subdirHashes - (pendingSubdirs - {name});
      entries := entries + [Entry(name, true, childHash)];
      pendingSubdirs := pendingSubdirs - {name};
    }
    assert subdirHashes - pendingSubdirs == subdirHashes;
    ListsIsUnique(StableSort(entries), SortedEntries(fileChildren, subdirHashes), fileChildren, subdirHashes);
    hash := sha(HashInput(StableSort(entries)));
  }

  /**
   * The digests of `files`. A directory's `childHashes` gives every name its subdirectory hash: a
   * file's own content hash is overwritten there, because the file's path is registered as a directory too.
   * Paths are relative: none begins with an empty name, which would be spelled like the top-level directory.
   */
  method BuildDirectoryDigests(files: seq<FileHash>, sha: string -> string)
    returns (root: string, directories: map<Path, DirectoryDigest>)
    requires forall f :: f in files ==> f.path != [] && f.path[0] != ""
    ensures root == DirHash(sha, Contents(files), [])
    ensures forall d :: d in directories <==> Registered(Contents(files), d)
    ensures forall d :: d in directories ==>
      directories[d] == DirectoryDigest(d, SubdirHashes(sha, Contents(files), d), DirHash(sha, Contents(files), d))
  {
    ghost var contents := Contents(files);
    if |files| == 0 {
      EmptyDigests(sha);
      root := sha("");
      directories := map[[] := DirectoryDigest([], map[], root)];
      return;
    }
    var dirFileChildren: map<Path, map<string, string>> := map[[] := map[]];
    for k := 0 to |files|
      invariant FileChildrenOf(dirFileChildren, Contents(files[..k]))
    {
      assert files[..k + 1][..k] == files[..k];
      dirFileChildren := RegisterFile(dirFileChildren, files[k], Contents(files[..k]));
    }
    assert files[..|files|] == files;
    var dirSubdirChildren := RegisterSubdirs(dirFileChildren.Keys, contents);
    ghost var hashes := Hashes(sha, contents);
    DirHashIsHashing(sha, contents);
    AllReady(dirFileChildren, dirSubdirChildren, contents);
    var dirHashes := HashDirectories(sha, dirFileChildren, dirSubdirChildren, contents, hashes);
    root := dirHashes[[]];
    directories := map d | d in dirFileChildren.Keys ::
      DirectoryDigest(d, ChildHashes(dirFileChildren[d], d, dirSubdirChildren[d], dirHashes), dirHashes[d]);
    forall d | d in directories
      ensures directories[d].childHashes == SubdirHashes(sha, contents, d)
    {
      ChildHashesAreHashes(contents, d, dirHashes, hashes);
    }
  }

  /** Deepest first, a directory's subdirectories precede it. */
  lemma SubdirsComeFirst(allDirs: seq<Path>, k: nat, n: string)
    requires k < |allDirs| && allDirs[k] + [n] in allDirs
    requires forall i, j :: 0 <= i < j < |allDirs| ==> |allDirs[i]| >= |allDirs[j]|
    ensures exists i :: 0 <= i < k && allDirs[i] == allDirs[k] + [n]
  {
    var i :| 0 <= i < |allDirs| && allDirs[i] == allDirs[k] + [n];
    assert i < k;
  }

  /** Step 3: the directories' hashes, deepest first. */
  method HashDirectories(sha: string -> string, dirFileChildren: map<Path, map<string, string>>,
                         dirSubdirChildren: map<Path, set<string>>, ghost contents: map<Path, string>,
                         ghost hashes: Path -> string)
    returns (dirHashes: map<Path, string>)
    requires Hashing(sha, contents, hashes)
    requires forall d :: d in dirFileChildren ==> Ready(dirFileChildren, dirSubdirChildren, contents, d)
    ensures dirHashes.Keys == dirFileChildren.Keys
    ensures forall d :: d in dirHashes ==> dirHashes[d] == hashes(d)
  {
    var allDirs := DeepestFirst(dirFileChildren.Keys);
    dirHashes := map[];
    for k := 0 to |allDirs|
      invariant forall i :: 0 <= i < k ==> allDirs[i] in dirHashes
      invariant forall d :: d in dirHashes ==> d in dirFileChildren && dirHashes[d] == hashes(d)
    {
      var hash := HashNext(sha, allDirs, k, dirFileChildren, dirSubdirChildren, dirHashes, contents, hashes);
      dirHashes := dirHashes[allDirs[k] := hash];
    }
  }

  /** What is registered for `d` is complete, and so are its subdirectories. */
  ghost predicate Ready(dirFileChildren: map<Path, map<string, string>>, dirSubdirChildren: map<Path, set<string>>,
                        contents: map<Path, string>, d: Path) {
    && d in dirFileChildren && dirFileChildren[d] == FilesAt(contents, d)
    && d in dirSubdirChildren && dirSubdirChildren[d] == Names(contents, d)
    && forall n :: n in Names(contents, d) ==> d + [n] in dirFileChildren
  }

  lemma AllReady(dirFileChildren: map<Path, map<string, string>>, dirSubdirChildren: map<Path, set<string>>,
                 contents: map<Path, string>)
    requires FileChildrenOf(dirFileChildren, contents)
    requires dirFileChildren.Keys <= dirSubdirChildren.Keys
    requires forall d :: d in dirFileChildren ==> dirSubdirChildren[d] == Names(contents, d)
    ensures forall d :: d in dirFileChildren ==> Ready(dirFileChildren, dirSubdirChildren, contents, d)
  {
    forall d, n | d in dirFileChildren && n in Names(contents, d)
      ensures d + [n] in dirFileChildren
    {
      NamesAreRegistered(contents, d, n);
    }
  }

  method HashNext(sha: string -> string, allDirs: seq<Path>, k: nat, dirFileChildren: map<Path, map<string, string>>,
                  dirSubdirChildren: map<Path, set<string>>, dirHashes: map<Path, string>,
                  ghost contents: map<Path, string>, ghost hashes: Path -> string)
    returns (hash: string)
    requires k < |allDirs|
    requires Ready(dirFileChildren, dirSubdirChildren, contents, allDirs[k])
    requires forall d :: d in dirFileChildren ==> d in allDirs
    requires forall i, j :: 0 <= i < j < |allDirs| ==> |allDirs[i]| >= |allDirs[j]|
    requires Hashing(sha, contents, hashes)
    requires forall i :: 0 <= i < k ==> allDirs[i] in dirHashes
    requires forall d :: d in dirHashes ==> dirHashes[d] == hashes(d)
    ensures hash == hashes(allDirs[k])
  {
    var dir := allDirs[k];
    forall n | n in Names(contents, dir)
      ensures dir + [n] in dirHashes
    {
      SubdirsComeFirst(allDirs, k, n);
    }
    hash := HashDirectory(sha, dir, dirFileChildren[dir], dirSubdirChildren[dir], dirHashes,
                          HashesBelow(contents, dir, hashes));
    assert HashedAt(sha, contents, hashes, dir);
  }

  lemma ChildHashesAreHashes(files: map<Path, string>, d: Path, dirHashes: map<Path, string>, hashes: Path -> string)
    requires forall e :: e in dirHashes <==> Registered(files, e)
    requires forall e :: e in dirHashes ==> dirHashes[e] == hashes(e)
    ensures ChildHashes(FilesAt(files, d), d, Names(files, d), dirHashes) == HashesBelow(files, d, hashes)
  {
    forall n | n in Names(files, d)
      ensures d + [n] in dirHashes
    {
      NamesAreRegistered(files, d, n);
    }
  }

  /** The file entries, overwritten by the directory entries of the same name. */
  function ChildHashes(fileChildren: map<string, string>, d: Path, subdirChildren: set<string>, dirHashes: map<Path, string>)
    : map<string, string>
  {
    fileChildren + map n | n in subdirChildren && d + [n] in dirHashes :: dirHashes[d + [n]]
  }

  lemma EmptyDigests(sha: string -> string)
    ensures DirHash(sha, map[], []) == sha("") && SubdirHashes(sha, map[], []) == map[]
  {
    var entries := SortedEntries(FilesAt(map[], []), SubdirHashes(sha, map[], []));
    assert forall i :: 0 <= i < |entries| ==> entries[i] in entries;
  }
}
