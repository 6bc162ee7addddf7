/** The part of the disk the commands touch: regular files with their text
    and the set of existing directories, both keyed by path. */
module FileSys {

  import opened Common

  /** A path as its list of segments: `path.join` is concatenation and
      `path.dirname` drops the last segment. */
  type Path = seq<string>

  function Parent(p: Path): (d: Path)
    ensures p != [] ==> |d| == |p| - 1 && p == d + [p[|p| - 1]]
  {
    if p == [] then [] else p[..|p| - 1]
  }

  function Child(dir: Path, name: string): (p: Path)
    ensures |p| == |dir| + 1 && Parent(p) == dir && p[|dir|] == name
  {
    dir + [name]
  }

  /** Every directory that `mkdir -p p` guarantees afterwards. */
  function Prefixes(p: Path): set<Path> {
    set k | 0 <= k <= |p| :: p[..k]
  }

  /** `mkdir -p p` fails when some prefix of p is a regular file. */
  predicate NoFileOnPath(files: map<Path, string>, p: Path) {
    forall k :: 0 <= k <= |p| ==> p[..k] !in files
  }

  function Read(files: map<Path, string>, p: Path): Option<string> {
    if p in files then Some(files[p]) else None
  }

  /** p holds the same file (or the same absence of one) in a and b. */
  ghost predicate SameAt(a: map<Path, string>, b: map<Path, string>, p: Path) {
    Read(a, p) == Read(b, p)
  }

  /** A path is a file or a directory, never both, and everything but the root
      lives in a directory. */
  ghost predicate WellFormed(files: map<Path, string>, dirs: set<Path>) {
    && files.Keys !! dirs
    && (forall p :: p in files ==> Parent(p) in dirs)
    && (forall d :: d in dirs && d != [] ==> Parent(d) in dirs)
  }

  /** `readdirSync(dir)`: the names of the files and directories directly in dir. */
  function EntriesOf(files: map<Path, string>, dirs: set<Path>, dir: Path): set<string> {
    (set p | p in files && |p| == |dir| + 1 && p[..|dir|] == dir :: p[|dir|]) +
    (set d | d in dirs && |d| == |dir| + 1 && d[..|dir|] == dir :: d[|dir|])
  }

  class FileSystem {
    var files: map<Path, string>
    var dirs: set<Path>

    ghost predicate Valid()
      reads this
    {
      WellFormed(files, dirs)
    }

    constructor (files0: map<Path, string>, dirs0: set<Path>)
      requires files0.Keys !! dirs0
      requires forall p :: p in files0 ==> Parent(p) in dirs0
      requires forall d :: d in dirs0 && d != [] ==> Parent(d) in dirs0
      ensures Valid() && files == files0 && dirs == dirs0
    {
      files, dirs := files0, dirs0;
    }

    /** `fs.existsSync` / `fs.accessSync`: true for files and directories alike. */
    predicate Exists(p: Path)
      reads this
    {
      p in files || p in dirs
    }

    /** `writeFileSync` and `copyFileSync` succeed on p exactly when p is not a
        directory and its parent is one. */
    predicate CanWrite(p: Path)
      reads this
    {
      p !in dirs && Parent(p) in dirs
    }

    function Entries(dir: Path): set<string>
      reads this
    {
      EntriesOf(files, dirs, dir)
    }

    /** `fs.mkdirSync(p, { recursive: true })`. */
    method MakeDirs(p: Path) returns (ok: bool)
      requires Valid()
      modifies this
      ensures Valid()
      ensures ok == NoFileOnPath(old(files), p)
      ensures files == old(files)
      ensures dirs == if ok then old(dirs) + Prefixes(p) else old(dirs)
    {
      ok := NoFileOnPath(files, p);
      if ok {
        forall d | d in Prefixes(p) && d != [] ensures Parent(d) in Prefixes(p) {
          var k :| 0 <= k <= |p| && d == p[..k];
          assert Parent(d) == p[..k - 1];
        }
        dirs := dirs + Prefixes(p);
      }
    }

    /** `fs.writeFileSync(p, content)`; false stands for the exception it throws. */
    method WriteFile(p: Path, content: string) returns (ok: bool)
      requires Valid()
      modifies this
      ensures Valid()
      ensures ok == old(CanWrite(p))
      ensures dirs == old(dirs)
      ensures files == if ok then old(files)[p := content] else old(files)
    {
      ok := CanWrite(p);
      if ok {
        files := files[p := content];
      }
    }

    /** `fs.copyFileSync(src, dst)`: src must be a regular file. */
    method CopyFile(src: Path, dst: Path) returns (ok: bool)
      requires Valid()
      modifies this
      ensures Valid()
      ensures ok == (src in old(files) && old(CanWrite(dst)))
      ensures dirs == old(dirs)
      ensures files == if ok then old(files)[dst := old(files)[src]] else old(files)
    {
      ok := src in files && CanWrite(dst);
      if ok {
        files := files[dst := files[src]];
      }
    }
  }

  /** `readdirSync` lists exactly the names whose child path exists. */
  lemma EntriesExact(files: map<Path, string>, dirs: set<Path>, dir: Path, e: string)
    ensures e in EntriesOf(files, dirs, dir) <==> Child(dir, e) in files || Child(dir, e) in dirs
  {
    var p := Child(dir, e);
    assert p[..|dir|] == dir;
    if e in EntriesOf(files, dirs, dir) {
      var q :| (q in files || q in dirs) && |q| == |dir| + 1 && q[..|dir|] == dir && q[|dir|] == e;
      assert q == q[..|dir|] + [q[|dir|]];
    }
    if p in files {
      assert e in (set q | q in files && |q| == |dir| + 1 && q[..|dir|] == dir :: q[|dir|]);
    } else if p in dirs {
      assert e in (set d | d in dirs && |d| == |dir| + 1 && d[..|dir|] == dir :: d[|dir|]);
    }
  }

  /** Every ancestor of a directory is a directory. */
  lemma AncestorsAreDirs(files: map<Path, string>, dirs: set<Path>, d: Path, k: nat)
    requires WellFormed(files, dirs) && d in dirs && k <= |d|
    ensures d[..k] in dirs
    decreases |d|
  {
    if k < |d| {
      var up := Parent(d);
      assert up[..k] == d[..k];
      AncestorsAreDirs(files, dirs, up, k);
    } else {
      assert d[..k] == d;
    }
  }

  /** `mkdir -p a` creates nothing that `mkdir -p a/b` would not. */
  lemma PrefixesExtend(a: Path, b: Path)
    ensures Prefixes(a) <= Prefixes(a + b)
  {
    forall q | q in Prefixes(a) ensures q in Prefixes(a + b) {
      var k :| 0 <= k <= |a| && q == a[..k];
      assert q == (a + b)[..k];
    }
  }

  /** No file on the path of b means none on the path of any a whose
      prefixes are among b's. */
  /** A path that exists stays so while files are only added or overwritten
      and directories only added. */
  lemma ExistsKept(files: map<Path, string>, dirs: set<Path>, files1: map<Path, string>, dirs1: set<Path>, p: Path)
    requires p in files || p in dirs
    requires files.Keys <= files1.Keys && dirs <= dirs1
    ensures p in files1 || p in dirs1
  {
  }

  lemma NoFileOnShorter(files: map<Path, string>, a: Path, b: Path)
    requires NoFileOnPath(files, b) && Prefixes(a) <= Prefixes(b)
    ensures NoFileOnPath(files, a)
  {
    forall k | 0 <= k <= |a| ensures a[..k] !in files {
      assert a[..k] in Prefixes(a);
      var j :| 0 <= j <= |b| && a[..k] == b[..j];
    }
  }

  /** A path that differs from d at some position is not one of its prefixes. */
  lemma NotAPrefix(p: Path, d: Path, j: nat)
    requires j < |p| && (j >= |d| || p[j] != d[j])
    ensures p !in Prefixes(d)
  {
  }
}
