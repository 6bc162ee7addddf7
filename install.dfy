/** `install`: snapshots the three managed files and the config, skipping any
    that do not exist (the config is saved although install never overwrites
    it), writes the three version-stamped templates into the workspace, and
    creates the config and SOUL.md only where they are absent. With `--dry-run` it still reads the
    templates but changes nothing on disk. */
module Install {

  import opened Common
  import opened FileSys
  import opened Layout
  import opened Stamp
  import opened JsText
  import opened Overlay

  // ------------------------------------------------------------ disk helpers

  /** `ensureDir`: nothing to do when the path exists (as anything) or in a dry
      run; otherwise `mkdir -p`, which throws when a file stands in the way. */
  method EnsureDir(fs: FileSystem, p: Path, dry: bool) returns (ok: bool)
    requires fs.Valid()
    modifies fs
    ensures fs.Valid() && fs.files == old(fs.files)
    ensures ok == (dry || old(fs.Exists(p)) || NoFileOnPath(old(fs.files), p))
    ensures fs.dirs == if dry || old(fs.Exists(p)) || !ok then old(fs.dirs) else old(fs.dirs) + Prefixes(p)
  {
    if fs.Exists(p) || dry {
      return true;
    }
    ok := fs.MakeDirs(p);
  }

  /** Whether install's `writeFile` can put a file at p: p is not a directory
      and its parent either is one or can be created. */
  predicate Writable(files: map<Path, string>, dirs: set<Path>, p: Path) {
    p != [] && p !in dirs && (Parent(p) in dirs || NoFileOnPath(files, Parent(p)))
  }

  /** `writeFile`: make the parent directory, then write, unless in a dry run. */
  method Write(fs: FileSystem, p: Path, content: string, dry: bool) returns (ok: bool)
    requires fs.Valid()
    modifies fs
    ensures fs.Valid()
    ensures ok == (dry || Writable(old(fs.files), old(fs.dirs), p))
    ensures fs.files == if dry || !ok then old(fs.files) else old(fs.files)[p := content]
    ensures dry ==> fs.dirs == old(fs.dirs)
    ensures ok && !dry ==> Parent(p) in fs.dirs
    ensures old(fs.dirs) <= fs.dirs <= old(fs.dirs) + Prefixes(Parent(p))
  {
    assert Parent(p)[..|Parent(p)|] == Parent(p);
    ok := EnsureDir(fs, Parent(p), dry);
    if !ok || dry {
      return;
    }
    if p != [] {
      NotAPrefix(p, Parent(p), |p| - 1);
    }
    ok := fs.WriteFile(p, content);
  }

  // ---------------------------------------------------------------- snapshot

  /** `timestamp()`: the run's ISO-8601 time with every ':' replaced by '-', so
      that it can name a directory. */
  function SnapshotName(iso: string): (r: string)
    ensures |r| == |iso|
    ensures forall i :: 0 <= i < |iso| ==> r[i] == (if iso[i] == ':' then '-' else iso[i])
    ensures ':' !in r
  {
    if iso == [] then [] else [if iso[0] == ':' then '-' else iso[0]] + SnapshotName(iso[1..])
  }

  function SnapshotDir(home: Path, iso: string): Path {
    BackupsRoot(home) + [SnapshotName(iso)]
  }

  /** The deepest directory a snapshot can need: the compactor's. */
  function SnapshotDeep(home: Path, iso: string): Path {
    SnapshotDir(home, iso) + ["workspace", "skills", "memory-compactor"]
  }

  /** p lies strictly inside directory d. */
  predicate Inside(d: Path, p: Path) {
    |d| < |p| && p[..|d|] == d
  }

  /** `pathsToBackup`, in order. SOUL.md is deliberately not among them. */
  function BackupSources(home: Path): seq<Path> {
    [Operating(home), DetSoul(home), Compactor(home), Config(home)]
  }

  /** Where a file under the OpenClaw root goes in a snapshot: its path relative
      to the root, re-rooted at the snapshot directory. */
  function BackupDest(home: Path, snap: Path, p: Path): Path
    requires |Root(home)| < |p|
  {
    snap + p[|Root(home)|..]
  }

  /** What copying, in order, each of srcs that is a regular file adds to the disk. */
  function BackupFiles(files: map<Path, string>, home: Path, snap: Path, srcs: seq<Path>): map<Path, string>
    requires forall p :: p in srcs ==> |Root(home)| < |p|
  {
    if srcs == [] then map[]
    else
      var before := BackupFiles(files, home, snap, srcs[..|srcs| - 1]);
      var p := srcs[|srcs| - 1];
      if p in files then before[BackupDest(home, snap, p) := files[p]] else before
  }

  /** The snapshot written out path by path: the three workspace files keep
      their `workspace/...` paths inside it and the config sits at its top;
      each is there only when its source is a regular file. */
  function ExpectedSnapshot(files: map<Path, string>, home: Path, snap: Path): map<Path, string> {
    var m0: map<Path, string> := map[];
    var m1 := if Operating(home) in files
              then m0[snap + ["workspace", "OPERATING_RULES.md"] := files[Operating(home)]] else m0;
    var m2 := if DetSoul(home) in files
              then m1[snap + ["workspace", "SOUL.deterministic.md"] := files[DetSoul(home)]] else m1;
    var m3 := if Compactor(home) in files
              then m2[snap + ["workspace", "skills", "memory-compactor", "SKILL.md"] := files[Compactor(home)]] else m2;
    if Config(home) in files then m3[snap + [".deterministic.json"] := files[Config(home)]] else m3
  }

  /** The relative paths the snapshot uses. */
  lemma BackupDestinations(home: Path, snap: Path)
    ensures BackupDest(home, snap, Operating(home)) == snap + ["workspace", "OPERATING_RULES.md"]
    ensures BackupDest(home, snap, DetSoul(home)) == snap + ["workspace", "SOUL.deterministic.md"]
    ensures BackupDest(home, snap, Compactor(home)) == snap + ["workspace", "skills", "memory-compactor", "SKILL.md"]
    ensures BackupDest(home, snap, Config(home)) == snap + [".deterministic.json"]
  {
    var r := |Root(home)|;
    assert Operating(home)[r..] == ["workspace", "OPERATING_RULES.md"];
    assert DetSoul(home)[r..] == ["workspace", "SOUL.deterministic.md"];
    assert Compactor(home)[r..] == ["workspace", "skills", "memory-compactor", "SKILL.md"];
    assert Config(home)[r..] == [".deterministic.json"];
  }

  /** The copy loop produces exactly the snapshot written out above. */
  lemma SnapshotSpelledOut(files: map<Path, string>, home: Path, snap: Path)
    ensures BackupFiles(files, home, snap, BackupSources(home)) == ExpectedSnapshot(files, home, snap)
  {
    var srcs := BackupSources(home);
    BackupDestinations(home, snap);
    var s1 := [Operating(home)];
    var s2 := s1 + [DetSoul(home)];
    var s3 := s2 + [Compactor(home)];
    assert s1[..0] == [] && s2[..1] == s1 && s3[..2] == s2 && srcs[..3] == s3;
    var m0: map<Path, string> := map[];
    var m1 := if Operating(home) in files
              then m0[snap + ["workspace", "OPERATING_RULES.md"] := files[Operating(home)]] else m0;
    var m2 := if DetSoul(home) in files
              then m1[snap + ["workspace", "SOUL.deterministic.md"] := files[DetSoul(home)]] else m1;
    var m3 := if Compactor(home) in files
              then m2[snap + ["workspace", "skills", "memory-compactor", "SKILL.md"] := files[Compactor(home)]] else m2;
    assert BackupFiles(files, home, snap, s1) == m1;
    assert BackupFiles(files, home, snap, s2) == m2;
    assert BackupFiles(files, home, snap, s3) == m3;
  }

  /** The directories the copy loop makes all lie on the compactor's path in the
      snapshot. */
  lemma BackupParentInside(home: Path, iso: string, p: Path)
    requires p in BackupSources(home)
    ensures Prefixes(Parent(BackupDest(home, SnapshotDir(home, iso), p))) <= Prefixes(SnapshotDeep(home, iso))
  {
    var snap := SnapshotDir(home, iso);
    BackupDestinations(home, snap);
    var dest := BackupDest(home, snap, p);
    if p == Config(home) {
      assert Parent(dest) == snap;
      PrefixesExtend(snap, ["workspace", "skills", "memory-compactor"]);
    } else if p == Compactor(home) {
      assert Parent(dest) == SnapshotDeep(home, iso);
    } else {
      assert Parent(dest) == snap + ["workspace"];
      PrefixesExtend(snap + ["workspace"], ["skills", "memory-compactor"]);
      assert snap + ["workspace"] + ["skills", "memory-compactor"] == SnapshotDeep(home, iso);
    }
  }

  /** One more step of the copy loop. */
  lemma BackupFilesStep(files: map<Path, string>, home: Path, snap: Path, srcs: seq<Path>, i: nat)
    requires i < |srcs| && forall p :: p in srcs ==> |Root(home)| < |p|
    ensures BackupFiles(files, home, snap, srcs[..i + 1]) ==
      if srcs[i] in files then BackupFiles(files, home, snap, srcs[..i])[BackupDest(home, snap, srcs[i]) := files[srcs[i]]]
      else BackupFiles(files, home, snap, srcs[..i])
  {
    assert srcs[..i + 1][..i] == srcs[..i];
  }

  lemma UnionUpdate(a: map<Path, string>, b: map<Path, string>, k: Path, v: string)
    ensures a + b[k := v] == (a + b)[k := v]
  {
  }

  /** Everything the copy loop writes lies inside the snapshot directory. */
  lemma {:induction false} BackupFilesInside(files: map<Path, string>, home: Path, snap: Path, srcs: seq<Path>)
    requires forall p :: p in srcs ==> |Root(home)| < |p|
    ensures forall q :: q in BackupFiles(files, home, snap, srcs) ==> Inside(snap, q)
  {
    if srcs != [] {
      var init := srcs[..|srcs| - 1];
      assert forall p :: p in init ==> p in srcs;
      BackupFilesInside(files, home, snap, init);
    }
  }

  /** A snapshot lives under `backups/`, so nothing inside it is a path of the
      workspace or the config. */
  lemma InsideSnapshotIsBackup(home: Path, iso: string, q: Path)
    requires Inside(SnapshotDir(home, iso), q)
    ensures |q| > |Root(home)| && q[|Root(home)|] == "backups"
  {
    assert q[|Root(home)|] == q[..|SnapshotDir(home, iso)|][|Root(home)|];
  }

  /** `backupSnapshot`: in a dry run nothing; otherwise make the snapshot
      directory and copy each source that exists to its place in it, throwing
      when a directory cannot be made or a source is not a regular file. A run
      that throws has copied some prefix of the list. */
  method BackupSnapshot(fs: FileSystem, home: Path, iso: string, dry: bool) returns (ok: bool)
    requires fs.Valid()
    modifies fs
    ensures fs.Valid()
    ensures dry ==> ok && fs.files == old(fs.files) && fs.dirs == old(fs.dirs)
    ensures !dry && ok ==> fs.files == old(fs.files) + ExpectedSnapshot(old(fs.files), home, SnapshotDir(home, iso))
    ensures !dry && ok ==> fs.Exists(SnapshotDir(home, iso))
    ensures !ok ==> exists i :: 0 <= i < |BackupSources(home)| && CopiedPrefix(old(fs.files), fs.files, home, iso, i)
    ensures old(fs.dirs) <= fs.dirs <= old(fs.dirs) + Prefixes(SnapshotDeep(home, iso))
    ensures BackupReady(old(fs.files), old(fs.dirs), home, iso) ==> ok
  {
    if dry {
      return true;
    }
    var snap := SnapshotDir(home, iso);
    PrefixesExtend(BackupsRoot(home), [SnapshotName(iso)] + ["workspace", "skills", "memory-compactor"]);
    PrefixesExtend(snap, ["workspace", "skills", "memory-compactor"]);
    assert BackupsRoot(home) + ([SnapshotName(iso)] + ["workspace", "skills", "memory-compactor"]) == SnapshotDeep(home, iso);
    assert BackupSources(home)[..0] == [];
    assert CopiedPrefix(fs.files, fs.files, home, iso, 0);
    ghost var ready := BackupReady(fs.files, fs.dirs, home, iso);
    if ready {
      PrefixesExtend(BackupsRoot(home), [SnapshotName(iso)]);
      NoFileOnShorter(fs.files, BackupsRoot(home), SnapshotDeep(home, iso));
      NoFileOnShorter(fs.files, snap, SnapshotDeep(home, iso));
    }
    ghost var files0, dirs0 := fs.files, fs.dirs;
    ok := EnsureDir(fs, BackupsRoot(home), false);
    if !ok {
      return;
    }
    ok := EnsureDir(fs, snap, false);
    if !ok {
      return;
    }
    assert snap[..|snap|] == snap;
    assert fs.Exists(snap);
    if ready {
      BackupReadyKept(files0, dirs0, fs.files, fs.dirs, home, iso);
    }
    ok := CopySources(fs, home, iso);
    if ok {
      assert BackupSources(home)[..|BackupSources(home)|] == BackupSources(home);
      SnapshotSpelledOut(old(fs.files), home, snap);
    }
  }

  /** The first i sources have been copied into the snapshot, and nothing else. */
  ghost predicate CopiedPrefix(files0: map<Path, string>, files: map<Path, string>, home: Path, iso: string, i: nat)
    requires i <= |BackupSources(home)|
  {
    files == files0 + BackupFiles(files0, home, SnapshotDir(home, iso), BackupSources(home)[..i])
  }

  /** The copy loop of `backupSnapshot`. */
  method CopySources(fs: FileSystem, home: Path, iso: string) returns (ok: bool)
    requires fs.Valid()
    modifies fs
    ensures fs.Valid()
    ensures ok ==> CopiedPrefix(old(fs.files), fs.files, home, iso, |BackupSources(home)|)
    ensures !ok ==> exists i :: 0 <= i < |BackupSources(home)| && CopiedPrefix(old(fs.files), fs.files, home, iso, i)
    ensures old(fs.dirs) <= fs.dirs <= old(fs.dirs) + Prefixes(SnapshotDeep(home, iso))
    ensures BackupReady(old(fs.files), old(fs.dirs), home, iso) ==> ok
  {
    var srcs := BackupSources(home);
    ghost var files0, dirs0 := fs.files, fs.dirs;
    assert srcs[..0] == [];
    var i := 0;
    while i < |srcs|
      invariant 0 <= i <= |srcs|
      invariant fs.Valid()
      invariant CopiedPrefix(files0, fs.files, home, iso, i)
      invariant old(fs.dirs) <= fs.dirs <= old(fs.dirs) + Prefixes(SnapshotDeep(home, iso))
      invariant BackupReady(files0, dirs0, home, iso) ==> BackupReady(fs.files, fs.dirs, home, iso)
    {
      CopiedOneMore(files0, fs.files, home, iso, i);
      ok := CopySource(fs, home, iso, srcs[i]);
      if !ok {
        return;
      }
      i := i + 1;
    }
    assert srcs[..i] == srcs;
    ok := true;
  }

  /** Copying source i, when it is a regular file, extends a copied prefix by
      one: the source still holds its old text, as nothing inside the
      snapshot is a source. */
  lemma CopiedOneMore(files0: map<Path, string>, files: map<Path, string>, home: Path, iso: string, i: nat)
    requires i < |BackupSources(home)|
    requires CopiedPrefix(files0, files, home, iso, i)
    ensures var p := BackupSources(home)[i];
      CopiedPrefix(files0, if p in files then files[BackupDest(home, SnapshotDir(home, iso), p) := files[p]] else files,
                   home, iso, i + 1)
  {
    var snap := SnapshotDir(home, iso);
    var srcs := BackupSources(home);
    var p := srcs[i];
    var before := BackupFiles(files0, home, snap, srcs[..i]);
    SourcesOutsideSnapshot(home, iso);
    BackupFilesStep(files0, home, snap, srcs, i);
    BackupFilesInside(files0, home, snap, srcs[..i]);
    assert p !in before;
    if p in files0 {
      UnionUpdate(files0, before, BackupDest(home, snap, p), files0[p]);
    }
  }

  /** None of the sources lies inside a snapshot. */
  lemma SourcesOutsideSnapshot(home: Path, iso: string)
    ensures forall p :: p in BackupSources(home) + [Soul(home)] ==> !Inside(SnapshotDir(home, iso), p)
  {
    var n := |home|;
    forall p | p in BackupSources(home) + [Soul(home)] ensures !Inside(SnapshotDir(home, iso), p) {
      assert p[n + 1] == "workspace" || p[n + 1] == ".deterministic.json";
      if Inside(SnapshotDir(home, iso), p) {
        InsideSnapshotIsBackup(home, iso, p);
      }
    }
  }

  /** One turn of the copy loop: a source that does not exist is skipped; one
      that does has its snapshot directory made and is copied there, which
      throws when the source is a directory. */
  method CopySource(fs: FileSystem, home: Path, iso: string, p: Path) returns (ok: bool)
    requires fs.Valid() && p in BackupSources(home)
    modifies fs
    ensures fs.Valid()
    ensures old(fs.dirs) <= fs.dirs <= old(fs.dirs) + Prefixes(SnapshotDeep(home, iso))
    ensures fs.files == if ok && p in old(fs.files)
      then old(fs.files)[BackupDest(home, SnapshotDir(home, iso), p) := old(fs.files)[p]]
      else old(fs.files)
    ensures ok == (!old(fs.Exists(p)) ||
                   (p in old(fs.files) && Writable(old(fs.files), old(fs.dirs), BackupDest(home, SnapshotDir(home, iso), p))))
    ensures BackupReady(old(fs.files), old(fs.dirs), home, iso) ==> ok && BackupReady(fs.files, fs.dirs, home, iso)
  {
    if !fs.Exists(p) {
      return true;
    }
    var dest := BackupDest(home, SnapshotDir(home, iso), p);
    BackupParentInside(home, iso, p);
    BackupPathsOffDeep(home, iso, p);
    NotAPrefix(dest, Parent(dest), |dest| - 1);
    assert Parent(dest)[..|Parent(dest)|] == Parent(dest);
    if BackupReady(fs.files, fs.dirs, home, iso) {
      NoFileOnShorter(fs.files, Parent(dest), SnapshotDeep(home, iso));
    }
    ghost var files0, dirs0 := fs.files, fs.dirs;
    ok := EnsureDir(fs, Parent(dest), false);
    if !ok {
      return;
    }
    ok := fs.CopyFile(p, dest);
    if BackupReady(files0, dirs0, home, iso) {
      BackupReadyKept(files0, dirs0, fs.files, fs.dirs, home, iso);
    }
  }

  /** Nothing stands in the way of the snapshot: no regular file on the path
      of the deepest snapshot directory, and no backup source and no place in
      the snapshot is a directory. */
  ghost predicate BackupReady(files: map<Path, string>, dirs: set<Path>, home: Path, iso: string) {
    && NoFileOnPath(files, SnapshotDeep(home, iso))
    && forall p :: p in BackupSources(home) ==>
         p !in dirs && BackupDest(home, SnapshotDir(home, iso), p) !in dirs
  }

  /** No source and no place in the snapshot lies on the deepest snapshot
      directory's path, so making that path never blocks a copy. */
  lemma BackupPathsOffDeep(home: Path, iso: string, p: Path)
    requires p in BackupSources(home)
    ensures p !in Prefixes(SnapshotDeep(home, iso))
    ensures BackupDest(home, SnapshotDir(home, iso), p) !in Prefixes(SnapshotDeep(home, iso))
  {
    var snap, deep := SnapshotDir(home, iso), SnapshotDeep(home, iso);
    BackupDestinations(home, snap);
    var n, m := |home|, |snap|;
    assert deep[n + 1] == "backups" && deep[m] == "workspace" && deep[m + 1] == "skills";
    NotAPrefix(p, deep, n + 1);
    var dest := BackupDest(home, snap, p);
    if p == Config(home) {
      NotAPrefix(dest, deep, m);
    } else if p == Compactor(home) {
      NotAPrefix(dest, deep, |deep|);
    } else {
      NotAPrefix(dest, deep, m + 1);
    }
  }

  /** Readiness survives any step that adds files off the deepest snapshot
      path and directories on it. */
  lemma BackupReadyKept(files: map<Path, string>, dirs: set<Path>, files1: map<Path, string>, dirs1: set<Path>,
                        home: Path, iso: string)
    requires BackupReady(files, dirs, home, iso)
    requires forall q :: q in files1 && q !in files ==> q !in Prefixes(SnapshotDeep(home, iso))
    requires dirs1 <= dirs + Prefixes(SnapshotDeep(home, iso))
    ensures BackupReady(files1, dirs1, home, iso)
  {
    var deep := SnapshotDeep(home, iso);
    forall k | 0 <= k <= |deep| ensures deep[..k] !in files1 {
      assert deep[..k] in Prefixes(deep);
    }
    forall p | p in BackupSources(home)
      ensures p !in dirs1 && BackupDest(home, SnapshotDir(home, iso), p) !in dirs1
    {
      BackupPathsOffDeep(home, iso, p);
    }
  }

  // --------------------------------------------------------------- templates

  predicate TemplatesPresent(templates: map<Path, string>) {
    OperatingTemplate in templates && DetSoulTemplate in templates && CompactorTemplate in templates
  }

  /** `copyWithVersionStamp`: read the template (throwing when it is missing,
      dry run or not), then write it, stamped, to dest. */
  method CopyWithVersionStamp(fs: FileSystem, templates: map<Path, string>, src: Path, dest: Path,
                              cli: string, dry: bool) returns (ok: bool)
    requires fs.Valid()
    modifies fs
    ensures fs.Valid()
    ensures ok == (src in templates && (dry || Writable(old(fs.files), old(fs.dirs), dest)))
    ensures fs.files == if ok && !dry then old(fs.files)[dest := Stamped(cli, templates[src])] else old(fs.files)
    ensures dry ==> fs.dirs == old(fs.dirs)
    ensures ok && !dry ==> Parent(dest) in fs.dirs
    ensures old(fs.dirs) <= fs.dirs <= old(fs.dirs) + Prefixes(Parent(dest))
  {
    if src !in templates {
      return false;
    }
    ok := Write(fs, dest, Stamped(cli, templates[src]), dry);
  }

  /** The workspace after the three stamped copies. */
  function StampedTemplates(files: map<Path, string>, home: Path, templates: map<Path, string>, cli: string): map<Path, string>
    requires TemplatesPresent(templates)
  {
    files[Operating(home) := Stamped(cli, templates[OperatingTemplate])]
         [DetSoul(home) := Stamped(cli, templates[DetSoulTemplate])]
         [Compactor(home) := Stamped(cli, templates[CompactorTemplate])]
  }

  /** Nothing stands in the way of the stamped copies: the templates are
      there, no regular file lies on the compactor directory's path, and none
      of the three targets is a directory. */
  ghost predicate TemplatesReady(files: map<Path, string>, dirs: set<Path>, home: Path, templates: map<Path, string>) {
    && TemplatesPresent(templates)
    && NoFileOnPath(files, Parent(Compactor(home)))
    && Operating(home) !in dirs && DetSoul(home) !in dirs && Compactor(home) !in dirs
  }

  /** The three targets lie off the compactor directory's path, which runs
      through the workspace. */
  lemma TargetsOffCompactorDir(home: Path)
    ensures Operating(home) !in Prefixes(Parent(Compactor(home)))
    ensures DetSoul(home) !in Prefixes(Parent(Compactor(home)))
    ensures Compactor(home) !in Prefixes(Parent(Compactor(home)))
    ensures Parent(Compactor(home))[..|Workspace(home)|] == Workspace(home)
  {
    var d, n := Parent(Compactor(home)), |Workspace(home)|;
    assert d[n] == "skills";
    NotAPrefix(Operating(home), d, n);
    NotAPrefix(DetSoul(home), d, n);
    NotAPrefix(Compactor(home), d, |d|);
  }

  /** A target whose parent is a directory stays writable while only
      directories off its path are created. */
  lemma StaysWritable(dirs: set<Path>, dirs1: set<Path>, d: Path, e: Path, p: Path)
    requires p != [] && p !in dirs && Parent(p) in dirs
    requires dirs <= dirs1 <= dirs + Prefixes(d)
    requires Prefixes(d) <= Prefixes(e) && p !in Prefixes(e)
    ensures p !in dirs1 && Parent(p) in dirs1
  {
  }

  /** Once `mkdir -p` of the compactor's directory has run where no file was
      in its way, the directory and the workspace are there. */
  lemma CompactorDirMade(files: map<Path, string>, dirs: set<Path>, dirs1: set<Path>, home: Path)
    requires WellFormed(files, dirs) && NoFileOnPath(files, Parent(Compactor(home)))
    requires dirs1 == if Parent(Compactor(home)) in files || Parent(Compactor(home)) in dirs then dirs
                      else dirs + Prefixes(Parent(Compactor(home)))
    ensures Workspace(home) in dirs1 && Parent(Compactor(home)) in dirs1
  {
    var d, n := Parent(Compactor(home)), |Workspace(home)|;
    assert d[..|d|] == d && d[..n] == Workspace(home);
    if d in dirs {
      AncestorsAreDirs(files, dirs, d, n);
    }
  }

  /** `installTemplates`: make the compactor's directory, then stamp the three
      templates into place, stopping at the first that throws. */
  method InstallTemplates(fs: FileSystem, home: Path, templates: map<Path, string>, cli: string, dry: bool)
    returns (ok: bool)
    requires fs.Valid()
    modifies fs
    ensures fs.Valid()
    ensures ok ==> TemplatesPresent(templates)
    ensures dry ==> ok == TemplatesPresent(templates) && fs.files == old(fs.files) && fs.dirs == old(fs.dirs)
    ensures !dry && ok ==> fs.files == StampedTemplates(old(fs.files), home, templates, cli)
    ensures !dry && ok ==> Parent(Compactor(home)) in fs.dirs
    ensures forall p :: Read(fs.files, p) != Read(old(fs.files), p) ==>
      p == Operating(home) || p == DetSoul(home) || p == Compactor(home)
    ensures old(fs.dirs) <= fs.dirs <= old(fs.dirs) + Prefixes(Parent(Compactor(home)))
    ensures TemplatesReady(old(fs.files), old(fs.dirs), home, templates) ==> ok
  {
    PrefixesExtend(Workspace(home), ["skills", "memory-compactor"]);
    assert Workspace(home) + ["skills", "memory-compactor"] == Parent(Compactor(home));
    ghost var ready := TemplatesReady(fs.files, fs.dirs, home, templates);
    ghost var files0, dirs0 := fs.files, fs.dirs;
    if ready {
      TargetsOffCompactorDir(home);
    }
    ok := EnsureDir(fs, Parent(Compactor(home)), dry);
    if !ok {
      return;
    }
    if ready && !dry {
      CompactorDirMade(files0, dirs0, fs.dirs, home);
    }
    ghost var dirs1 := fs.dirs;
    ok := CopyWithVersionStamp(fs, templates, OperatingTemplate, Operating(home), cli, dry);
    if !ok {
      return;
    }
    if ready && !dry {
      StaysWritable(dirs1, fs.dirs, Workspace(home), Parent(Compactor(home)), DetSoul(home));
      StaysWritable(dirs1, fs.dirs, Workspace(home), Parent(Compactor(home)), Compactor(home));
    }
    ok := CopyWithVersionStamp(fs, templates, DetSoulTemplate, DetSoul(home), cli, dry);
    if !ok {
      return;
    }
    ok := CopyWithVersionStamp(fs, templates, CompactorTemplate, Compactor(home), cli, dry);
  }

  // ------------------------------------------------------ config and SOUL.md

  /** `installConfigIfMissing`: an existing config is left alone; otherwise a
      missing config template makes the command refuse (exit 1, even in a dry
      run), a dry run stops there, and the template is copied into place. `ok`
      is false when the copy throws. */
  method InstallConfigIfMissing(fs: FileSystem, home: Path, templates: map<Path, string>, dry: bool)
    returns (refused: bool, ok: bool)
    requires fs.Valid()
    modifies fs
    ensures fs.Valid() && fs.dirs == old(fs.dirs)
    ensures refused <==> !old(fs.Exists(Config(home))) && ConfigTemplate !in templates
    ensures ok == (refused || old(fs.Exists(Config(home))) || dry || Root(home) in old(fs.dirs))
    ensures fs.files == if old(fs.Exists(Config(home))) || refused || dry || !ok then old(fs.files)
                        else old(fs.files)[Config(home) := templates[ConfigTemplate]]
  {
    if fs.Exists(Config(home)) {
      return false, true;
    }
    if ConfigTemplate !in templates {
      return true, true;
    }
    if dry {
      return false, true;
    }
    refused := false;
    ok := fs.WriteFile(Config(home), templates[ConfigTemplate]);
  }

  /** `bootstrapSoulIfMissing`: an existing SOUL.md is left alone; otherwise,
      outside a dry run, SOUL.md is created holding the overlay block. */
  method BootstrapSoulIfMissing(fs: FileSystem, home: Path, dry: bool) returns (ok: bool)
    requires fs.Valid()
    modifies fs
    ensures fs.Valid()
    ensures ok == (old(fs.Exists(Soul(home))) || dry || Writable(old(fs.files), old(fs.dirs), Soul(home)))
    ensures fs.files == if old(fs.Exists(Soul(home))) || dry || !ok then old(fs.files)
                        else old(fs.files)[Soul(home) := FreshSoul()]
    ensures old(fs.Exists(Soul(home))) || dry ==> fs.dirs == old(fs.dirs)
    ensures old(fs.dirs) <= fs.dirs <= old(fs.dirs) + Prefixes(Workspace(home))
  {
    if fs.Exists(Soul(home)) {
      return true;
    }
    assert Parent(Soul(home)) == Workspace(home);
    ok := Write(fs, Soul(home), Trim(OverlaySource) + "\n", dry);
  }

  // -------------------------------------------------------------- a full run

  /** The paths a run may write: the five files it manages and anything inside
      this run's snapshot directory. */
  predicate InstallWrites(home: Path, iso: string, p: Path) {
    || p == Operating(home) || p == DetSoul(home) || p == Compactor(home)
    || p == Config(home) || p == Soul(home)
    || Inside(SnapshotDir(home, iso), p)
  }

  /** The writes that follow the snapshot, over `base`: the three stamped
      files, then the config and SOUL.md where they are to be created. */
  function Laid(base: map<Path, string>, home: Path, op: string, det: string, comp: string,
                config: Option<string>, soul: Option<string>): map<Path, string>
  {
    var stamped := base[Operating(home) := op][DetSoul(home) := det][Compactor(home) := comp];
    var configured := if config.Some? then stamped[Config(home) := config.value] else stamped;
    if soul.Some? then configured[Soul(home) := soul.value] else configured
  }

  /** Every file on disk after an install that runs to the end outside a dry
      run: the snapshot of the old files, the stamped templates over the old
      workspace files, and the config and SOUL.md added only where nothing
      was there. */
  function InstalledFiles(files: map<Path, string>, dirs: set<Path>, home: Path,
                          templates: map<Path, string>, cli: string, iso: string): map<Path, string>
    requires TemplatesPresent(templates)
    requires Config(home) in files || Config(home) in dirs || ConfigTemplate in templates
  {
    Laid(files + ExpectedSnapshot(files, home, SnapshotDir(home, iso)), home,
         Stamped(cli, templates[OperatingTemplate]), Stamped(cli, templates[DetSoulTemplate]),
         Stamped(cli, templates[CompactorTemplate]),
         if Config(home) in files || Config(home) in dirs then None else Some(templates[ConfigTemplate]),
         if Soul(home) in files || Soul(home) in dirs then None else Some(FreshSoul()))
  }

  /** Reading one path of `Laid`: the last write to it wins. */
  lemma LaidAt(base: map<Path, string>, home: Path, op: string, det: string, comp: string,
               config: Option<string>, soul: Option<string>, p: Path)
    ensures Read(Laid(base, home, op, det, comp, config, soul), p) ==
      if p == Soul(home) && soul.Some? then soul
      else if p == Config(home) && config.Some? then config
      else if p == Compactor(home) then Some(comp)
      else if p == DetSoul(home) then Some(det)
      else if p == Operating(home) then Some(op)
      else Read(base, p)
  {
  }

  /** The snapshot changes nothing outside its own directory. */
  lemma SnapshotOnlyInside(files: map<Path, string>, home: Path, iso: string, p: Path)
    requires !Inside(SnapshotDir(home, iso), p)
    ensures Read(files + ExpectedSnapshot(files, home, SnapshotDir(home, iso)), p) == Read(files, p)
  {
    SnapshotSpelledOut(files, home, SnapshotDir(home, iso));
    BackupFilesInside(files, home, SnapshotDir(home, iso), BackupSources(home));
  }

  /** How the fixed paths relate: the five files are distinct, none lies in a
      snapshot, and neither the config nor SOUL.md is a directory that the
      run may create. */
  lemma InstallPaths(home: Path, iso: string)
    ensures Parent(Workspace(home)) == Root(home)
    ensures Parent(Soul(home)) == Workspace(home) && Parent(Config(home)) == Root(home)
    ensures Workspace(home) == Parent(Compactor(home))[..|Workspace(home)|]
    ensures Operating(home) != DetSoul(home) && Operating(home) != Compactor(home) && DetSoul(home) != Compactor(home)
    ensures Soul(home) != Operating(home) && Soul(home) != DetSoul(home) && Soul(home) != Compactor(home)
    ensures Config(home) != Operating(home) && Config(home) != DetSoul(home) && Config(home) != Compactor(home)
    ensures Config(home) != Soul(home)
    ensures forall p :: p in BackupSources(home) + [Soul(home)] ==> !Inside(SnapshotDir(home, iso), p)
    ensures Config(home) !in Prefixes(SnapshotDeep(home, iso)) && Config(home) !in Prefixes(Parent(Compactor(home)))
    ensures Soul(home) !in Prefixes(SnapshotDeep(home, iso)) && Soul(home) !in Prefixes(Parent(Compactor(home)))
    ensures Prefixes(Workspace(home)) <= Prefixes(Parent(Compactor(home)))
  {
    PrefixesExtend(Workspace(home), ["skills", "memory-compactor"]);
    assert Workspace(home) + ["skills", "memory-compactor"] == Parent(Compactor(home));
    var n := |home|;
    assert Operating(home)[n + 2] == "OPERATING_RULES.md";
    assert DetSoul(home)[n + 2] == "SOUL.deterministic.md";
    assert Compactor(home)[n + 2] == "skills";
    assert Soul(home)[n + 2] == "SOUL.md";
    assert Config(home)[n + 1] == ".deterministic.json";
    SourcesOutsideSnapshot(home, iso);
    assert SnapshotDeep(home, iso)[n + 1] == "backups";
    assert Parent(Compactor(home))[n + 1] == "workspace";
    assert Parent(Compactor(home))[n + 2] == "skills";
    NotAPrefix(Config(home), SnapshotDeep(home, iso), n + 1);
    NotAPrefix(Config(home), Parent(Compactor(home)), n + 1);
    NotAPrefix(Soul(home), SnapshotDeep(home, iso), n + 1);
    NotAPrefix(Soul(home), Parent(Compactor(home)), n + 2);
  }

  /** What holds of the disk at every point of a run, however it ends: only
      paths install may write have changed, an existing config and SOUL.md are
      as they were, and a managed file that had text has been replaced only
      once that text was in the snapshot. */
  ghost predicate SafeSoFar(files0: map<Path, string>, dirs0: set<Path>, files: map<Path, string>,
                            home: Path, iso: string)
  {
    && (forall p :: !InstallWrites(home, iso, p) ==> Read(files, p) == Read(files0, p))
    && (Config(home) in files0 || Config(home) in dirs0 ==> Read(files, Config(home)) == Read(files0, Config(home)))
    && (Soul(home) in files0 || Soul(home) in dirs0 ==> Read(files, Soul(home)) == Read(files0, Soul(home)))
    && (forall m :: m in ManagedFiles(home) && m.installed in files0 &&
                    Read(files, m.installed) != Read(files0, m.installed) ==>
          Read(files, BackupDest(home, SnapshotDir(home, iso), m.installed)) == Some(files0[m.installed]))
  }

  /** The directories a run may add: those on the compactor's path in the
      snapshot and in the workspace. */
  ghost predicate DirsGrown(dirs0: set<Path>, dirs: set<Path>, home: Path, iso: string) {
    dirs0 <= dirs <= dirs0 + Prefixes(SnapshotDeep(home, iso)) + Prefixes(Parent(Compactor(home)))
  }

  /** The snapshot holds each backed-up source's text at its place. */
  lemma SnapshotHolds(files: map<Path, string>, home: Path, snap: Path, p: Path)
    requires p in BackupSources(home) && p in files
    ensures BackupDest(home, snap, p) in ExpectedSnapshot(files, home, snap)
    ensures ExpectedSnapshot(files, home, snap)[BackupDest(home, snap, p)] == files[p]
  {
    BackupDestinations(home, snap);
    var n := |snap|;
    assert (snap + ["workspace", "OPERATING_RULES.md"])[n + 1] == "OPERATING_RULES.md";
    assert (snap + ["workspace", "SOUL.deterministic.md"])[n + 1] == "SOUL.deterministic.md";
    assert (snap + ["workspace", "skills", "memory-compactor", "SKILL.md"])[n + 1] == "skills";
  }

  /** A run that stops after copying any prefix of the sources is safe so far. */
  lemma SafeAfterBackup(files0: map<Path, string>, dirs0: set<Path>, home: Path, iso: string, k: nat)
    requires k <= |BackupSources(home)|
    ensures SafeSoFar(files0, dirs0, files0 + BackupFiles(files0, home, SnapshotDir(home, iso), BackupSources(home)[..k]), home, iso)
    ensures Read(files0 + BackupFiles(files0, home, SnapshotDir(home, iso), BackupSources(home)[..k]), Config(home)) == Read(files0, Config(home))
    ensures Read(files0 + BackupFiles(files0, home, SnapshotDir(home, iso), BackupSources(home)[..k]), Soul(home)) == Read(files0, Soul(home))
  {
    SourcesOutsideSnapshot(home, iso);
    BackupFilesInside(files0, home, SnapshotDir(home, iso), BackupSources(home)[..k]);
  }

  /** The full snapshot holds the old text of every managed file that had one. */
  lemma SnapshotComplete(files0: map<Path, string>, home: Path, iso: string)
    ensures forall m :: m in ManagedFiles(home) && m.installed in files0 ==>
      Read(files0 + ExpectedSnapshot(files0, home, SnapshotDir(home, iso)),
           BackupDest(home, SnapshotDir(home, iso), m.installed)) == Some(files0[m.installed])
  {
    forall m | m in ManagedFiles(home) && m.installed in files0
      ensures Read(files0 + ExpectedSnapshot(files0, home, SnapshotDir(home, iso)),
                   BackupDest(home, SnapshotDir(home, iso), m.installed)) == Some(files0[m.installed])
    {
      SnapshotHolds(files0, home, SnapshotDir(home, iso), m.installed);
    }
  }

  /** Once the old texts are in the snapshot, overwriting only the managed files
      keeps a run safe and leaves the config and SOUL.md as they were. */
  lemma SafeAfterTemplates(files0: map<Path, string>, dirs0: set<Path>, files1: map<Path, string>,
                           files2: map<Path, string>, home: Path, iso: string)
    requires SafeSoFar(files0, dirs0, files1, home, iso)
    requires forall m :: m in ManagedFiles(home) && m.installed in files0 ==>
      Read(files1, BackupDest(home, SnapshotDir(home, iso), m.installed)) == Some(files0[m.installed])
    requires forall p :: Read(files2, p) != Read(files1, p) ==>
      p == Operating(home) || p == DetSoul(home) || p == Compactor(home)
    ensures SafeSoFar(files0, dirs0, files2, home, iso)
    ensures Read(files2, Config(home)) == Read(files1, Config(home))
    ensures Read(files2, Soul(home)) == Read(files1, Soul(home))
  {
    var snap := SnapshotDir(home, iso);
    SourcesOutsideSnapshot(home, iso);
    forall m | m in ManagedFiles(home)
      ensures Inside(snap, BackupDest(home, snap, m.installed))
    {
      assert BackupDest(home, snap, m.installed)[..|snap|] == snap;
    }
    assert Config(home)[|home| + 1] == ".deterministic.json";
    assert Soul(home)[|home| + 2] == "SOUL.md";
  }

  /** Creating the config or SOUL.md where nothing was keeps a run safe. */
  lemma SafeAfterCreate(files0: map<Path, string>, dirs0: set<Path>, files: map<Path, string>,
                        home: Path, iso: string, p: Path, c: string)
    requires SafeSoFar(files0, dirs0, files, home, iso)
    requires (p == Config(home) || p == Soul(home)) && p !in files0 && p !in dirs0
    ensures SafeSoFar(files0, dirs0, files[p := c], home, iso)
  {
    InstallPaths(home, iso);
    var snap := SnapshotDir(home, iso);
    forall m | m in ManagedFiles(home)
      ensures BackupDest(home, snap, m.installed) != p
    {
      BackupDestinations(home, snap);
      assert Inside(snap, BackupDest(home, snap, m.installed));
    }
  }

  /** The steps of a run that completes compose to `InstalledFiles`. */
  lemma CompletedRun(files0: map<Path, string>, dirs0: set<Path>, home: Path, templates: map<Path, string>,
                     cli: string, iso: string, configExisted: bool, soulExisted: bool,
                     files2: map<Path, string>, files3: map<Path, string>, files4: map<Path, string>)
    requires TemplatesPresent(templates)
    requires configExisted == (Config(home) in files0 || Config(home) in dirs0)
    requires soulExisted == (Soul(home) in files0 || Soul(home) in dirs0)
    requires configExisted || ConfigTemplate in templates
    requires files2 == StampedTemplates(files0 + ExpectedSnapshot(files0, home, SnapshotDir(home, iso)), home, templates, cli)
    requires files3 == if configExisted then files2 else files2[Config(home) := templates[ConfigTemplate]]
    requires files4 == if soulExisted then files3 else files3[Soul(home) := FreshSoul()]
    ensures files4 == InstalledFiles(files0, dirs0, home, templates, cli, iso)
  {
  }

  /** Taking the snapshot leaves the stamped copies ready: it adds files only
      inside the snapshot and directories only on the snapshot's path. */
  lemma TemplatesReadyAfterBackup(files: map<Path, string>, dirs: set<Path>, files1: map<Path, string>,
                                  dirs1: set<Path>, home: Path, iso: string, templates: map<Path, string>)
    requires TemplatesReady(files, dirs, home, templates)
    requires files1 == files + ExpectedSnapshot(files, home, SnapshotDir(home, iso))
    requires dirs1 <= dirs + Prefixes(SnapshotDeep(home, iso))
    ensures TemplatesReady(files1, dirs1, home, templates)
  {
    var snap, d := SnapshotDir(home, iso), Parent(Compactor(home));
    SnapshotTopLevel(files, home, snap);
    forall k | 0 <= k <= |d| ensures d[..k] !in files1 {
      assert |d[..k]| <= |snap|;
    }
    BackupPathsOffDeep(home, iso, Operating(home));
    BackupPathsOffDeep(home, iso, DetSoul(home));
    BackupPathsOffDeep(home, iso, Compactor(home));
  }

  /** Readiness is the ordinary case: on a home holding just the OpenClaw root
      and workspace directories and any of install's own files, with the
      templates shipped, nothing stands in a run's way. */
  lemma ReadyOnPlainHome(files: map<Path, string>, home: Path, iso: string, templates: map<Path, string>)
    requires TemplatesPresent(templates)
    requires forall p :: p in files ==> p in BackupSources(home) || p == Soul(home)
    ensures BackupReady(files, Prefixes(Workspace(home)), home, iso)
    ensures TemplatesReady(files, Prefixes(Workspace(home)), home, templates)
  {
    var ws, deep, d := Workspace(home), SnapshotDeep(home, iso), Parent(Compactor(home));
    var snap, r := SnapshotDir(home, iso), |Root(home)|;
    assert ws[r] == "workspace" && deep[r] == "backups" && d[r] == "workspace";
    NotAPrefix(Soul(home), deep, r);
    NotAPrefix(Config(home), d, r);
    NotAPrefix(Soul(home), d, |ws|);
    TargetsOffCompactorDir(home);
    forall k | 0 <= k <= |deep| ensures deep[..k] !in files {
      assert deep[..k] in Prefixes(deep);
      if deep[..k] in BackupSources(home) {
        BackupPathsOffDeep(home, iso, deep[..k]);
      }
    }
    forall k | 0 <= k <= |d| ensures d[..k] !in files {
      assert d[..k] in Prefixes(d);
    }
    BackupDestinations(home, snap);
    forall p | p in BackupSources(home)
      ensures p !in Prefixes(ws) && BackupDest(home, snap, p) !in Prefixes(ws)
    {
      if p == Config(home) {
        NotAPrefix(p, ws, r);
      } else {
        NotAPrefix(p, ws, |ws|);
      }
      NotAPrefix(BackupDest(home, snap, p), ws, |ws|);
    }
  }

  /** The first two steps of a run: the snapshot, then the stamped templates. */
  method BackupAndStamp(fs: FileSystem, home: Path, templates: map<Path, string>, cli: string, iso: string, dry: bool)
    returns (ok: bool)
    requires fs.Valid()
    modifies fs
    ensures fs.Valid()
    ensures dry ==> ok == TemplatesPresent(templates) && fs.files == old(fs.files) && fs.dirs == old(fs.dirs)
    ensures ok ==> TemplatesPresent(templates)
    ensures ok && !dry ==>
      && fs.files == StampedTemplates(old(fs.files) + ExpectedSnapshot(old(fs.files), home, SnapshotDir(home, iso)), home, templates, cli)
      && Workspace(home) in fs.dirs
      && fs.Exists(SnapshotDir(home, iso))
    ensures SafeSoFar(old(fs.files), old(fs.dirs), fs.files, home, iso)
    ensures Read(fs.files, Config(home)) == Read(old(fs.files), Config(home))
    ensures Read(fs.files, Soul(home)) == Read(old(fs.files), Soul(home))
    ensures DirsGrown(old(fs.dirs), fs.dirs, home, iso)
    ensures (!dry && BackupReady(old(fs.files), old(fs.dirs), home, iso) &&
             TemplatesReady(old(fs.files), old(fs.dirs), home, templates)) ==> ok
  {
    ghost var files0, dirs0 := fs.files, fs.dirs;
    SourcesOutsideSnapshot(home, iso);
    ok := BackupSnapshot(fs, home, iso, dry);
    if !ok {
      ghost var k :| 0 <= k < |BackupSources(home)| && CopiedPrefix(files0, fs.files, home, iso, k);
      SafeAfterBackup(files0, dirs0, home, iso, k);
      return;
    }
    ghost var files1 := fs.files;
    if !dry {
      SafeAfterBackup(files0, dirs0, home, iso, 4);
      assert BackupSources(home)[..4] == BackupSources(home);
      SnapshotSpelledOut(files0, home, SnapshotDir(home, iso));
      SnapshotComplete(files0, home, iso);
      if TemplatesReady(files0, dirs0, home, templates) {
        TemplatesReadyAfterBackup(files0, dirs0, fs.files, fs.dirs, home, iso, templates);
      }
    }
    PrefixesExtend(Workspace(home), ["skills", "memory-compactor"]);
    assert Workspace(home) + ["skills", "memory-compactor"] == Parent(Compactor(home));
    ok := InstallTemplates(fs, home, templates, cli, dry);
    if !dry {
      SafeAfterTemplates(files0, dirs0, files1, fs.files, home, iso);
      if ok {
        AncestorsAreDirs(fs.files, fs.dirs, Parent(Compactor(home)), |Workspace(home)|);
        assert Parent(Compactor(home))[..|Workspace(home)|] == Workspace(home);
      }
    }
  }

  /** The command: the host check, then backup, templates, config and SOUL.md in
      that order; an exception anywhere ends the run with the writes made so
      far. */
  method Install(fs: FileSystem, home: Path, templates: map<Path, string>, cli: string, iso: string, dry: bool)
    returns (o: Outcome)
    requires fs.Valid()
    modifies fs
    ensures fs.Valid()
    ensures !old(fs.Exists(Root(home))) || !old(fs.Exists(Workspace(home))) ==>
      o == Exited(1) && fs.files == old(fs.files) && fs.dirs == old(fs.dirs)
    ensures dry ==> fs.files == old(fs.files) && fs.dirs == old(fs.dirs)
    ensures dry && old(fs.Exists(Root(home))) && old(fs.Exists(Workspace(home))) ==>
      o == (if !TemplatesPresent(templates) then Crashed
            else if !old(fs.Exists(Config(home))) && ConfigTemplate !in templates then Exited(1)
            else Exited(0))
    ensures o == Exited(0) || o == Exited(1) || o == Crashed
    ensures o == Exited(1) ==>
      || !old(fs.Exists(Root(home))) || !old(fs.Exists(Workspace(home)))
      || (!old(fs.Exists(Config(home))) && ConfigTemplate !in templates)
    ensures o == Exited(0) ==>
      TemplatesPresent(templates) && (old(fs.Exists(Config(home))) || ConfigTemplate in templates)
    ensures o == Exited(0) && !dry ==>
      fs.files == InstalledFiles(old(fs.files), old(fs.dirs), home, templates, cli, iso)
    ensures o == Exited(1) && !dry && old(fs.Exists(Root(home)) && fs.Exists(Workspace(home))) ==>
      && TemplatesPresent(templates)
      && fs.files == StampedTemplates(old(fs.files) + ExpectedSnapshot(old(fs.files), home, SnapshotDir(home, iso)),
                                      home, templates, cli)
    ensures (!dry && old(fs.Exists(Root(home)) && fs.Exists(Workspace(home))) &&
             BackupReady(old(fs.files), old(fs.dirs), home, iso) &&
             TemplatesReady(old(fs.files), old(fs.dirs), home, templates)) ==>
      o == (if old(fs.Exists(Config(home))) || ConfigTemplate in templates then Exited(0) else Exited(1))
    ensures !dry && o != Crashed && old(fs.Exists(Root(home)) && fs.Exists(Workspace(home))) ==>
      fs.Exists(SnapshotDir(home, iso))
    ensures SafeSoFar(old(fs.files), old(fs.dirs), fs.files, home, iso)
    ensures DirsGrown(old(fs.dirs), fs.dirs, home, iso)
  {
    if !fs.Exists(Root(home)) || !fs.Exists(Workspace(home)) {
      return Exited(1);
    }
    assert Parent(Workspace(home)) == Root(home);
    assert Root(home) in fs.dirs;
    ghost var files0, dirs0 := fs.files, fs.dirs;
    var ok := BackupAndStamp(fs, home, templates, cli, iso, dry);
    if !ok {
      return Crashed;
    }
    InstallPaths(home, iso);
    ghost var files2, dirs2 := fs.files, fs.dirs;
    ghost var snap := SnapshotDir(home, iso);
    var refused, copied := InstallConfigIfMissing(fs, home, templates, dry);
    if refused {
      if !dry {
        ExistsKept(files2, dirs2, fs.files, fs.dirs, snap);
      }
      return Exited(1);
    }
    // the OpenClaw root is a directory, so copying the config cannot throw
    assert copied;
    if !dry && !(Config(home) in files0 || Config(home) in dirs0) {
      SafeAfterCreate(files0, dirs0, files2, home, iso, Config(home), templates[ConfigTemplate]);
    }
    ghost var files3, dirs3 := fs.files, fs.dirs;
    ok := BootstrapSoulIfMissing(fs, home, dry);
    // the workspace is a directory, so creating SOUL.md cannot throw
    assert ok;
    if !dry && !(Soul(home) in files0 || Soul(home) in dirs0) {
      SafeAfterCreate(files0, dirs0, files3, home, iso, Soul(home), FreshSoul());
    }
    if !dry {
      CompletedRun(files0, dirs0, home, templates, cli, iso, Config(home) in files2 || Config(home) in dirs2,
                   Soul(home) in files3 || Soul(home) in dirs3, files2, files3, fs.files);
      ExistsKept(files2, dirs2, files3, dirs3, snap);
      ExistsKept(files3, dirs3, fs.files, fs.dirs, snap);
    }
    return Exited(0);
  }

  // ------------------------------------------- what a completed run leaves

  /** Reading one path after a completed run: the last write to it wins. */
  lemma InstalledRead(files: map<Path, string>, dirs: set<Path>, home: Path,
                      templates: map<Path, string>, cli: string, iso: string, p: Path)
    requires TemplatesPresent(templates)
    requires Config(home) in files || Config(home) in dirs || ConfigTemplate in templates
    ensures Read(InstalledFiles(files, dirs, home, templates, cli, iso), p) ==
      if p == Soul(home) && Soul(home) !in files && Soul(home) !in dirs then Some(FreshSoul())
      else if p == Config(home) && Config(home) !in files && Config(home) !in dirs then Some(templates[ConfigTemplate])
      else if p == Compactor(home) then Some(Stamped(cli, templates[CompactorTemplate]))
      else if p == DetSoul(home) then Some(Stamped(cli, templates[DetSoulTemplate]))
      else if p == Operating(home) then Some(Stamped(cli, templates[OperatingTemplate]))
      else Read(files + ExpectedSnapshot(files, home, SnapshotDir(home, iso)), p)
  {
    var base := files + ExpectedSnapshot(files, home, SnapshotDir(home, iso));
    var config := if Config(home) in files || Config(home) in dirs then None else Some(templates[ConfigTemplate]);
    var soul := if Soul(home) in files || Soul(home) in dirs then None else Some(FreshSoul());
    var op, det, comp := Stamped(cli, templates[OperatingTemplate]), Stamped(cli, templates[DetSoulTemplate]),
                         Stamped(cli, templates[CompactorTemplate]);
    assert InstalledFiles(files, dirs, home, templates, cli, iso) == Laid(base, home, op, det, comp, config, soul);
    LaidAt(base, home, op, det, comp, config, soul, p);
  }

  /** Each managed file holds its template under the stamp line. */
  lemma InstalledStamps(files: map<Path, string>, dirs: set<Path>, home: Path,
                        templates: map<Path, string>, cli: string, iso: string, m: Managed)
    requires TemplatesPresent(templates)
    requires Config(home) in files || Config(home) in dirs || ConfigTemplate in templates
    requires m in ManagedFiles(home)
    ensures Read(InstalledFiles(files, dirs, home, templates, cli, iso), m.installed) == Some(Stamped(cli, templates[m.template]))
  {
    var n := |Workspace(home)|;
    assert m.installed[n] != Soul(home)[n] && |Config(home)| < |m.installed|;
    InstalledRead(files, dirs, home, templates, cli, iso, m.installed);
  }

  /** Reading the stamp of a managed file back after a run with a plain
      version gives that version. */
  lemma InstalledVersion(files: map<Path, string>, dirs: set<Path>, home: Path,
                         templates: map<Path, string>, cli: string, iso: string, m: Managed)
    requires TemplatesPresent(templates)
    requires Config(home) in files || Config(home) in dirs || ConfigTemplate in templates
    requires IsPlainVersion(cli) && m in ManagedFiles(home)
    ensures m.installed in InstalledFiles(files, dirs, home, templates, cli, iso)
    ensures ExtractVersion(InstalledFiles(files, dirs, home, templates, cli, iso)[m.installed]) == Some(cli)
  {
    InstalledStamps(files, dirs, home, templates, cli, iso, m);
    StampedRoundTrip(cli, templates[m.template]);
  }

  /** The config and SOUL.md are left exactly as they were when they exist, and
      are created (from the config template, and holding the overlay) when
      they do not. */
  lemma InstalledUserFiles(files: map<Path, string>, dirs: set<Path>, home: Path,
                           templates: map<Path, string>, cli: string, iso: string)
    requires TemplatesPresent(templates)
    requires Config(home) in files || Config(home) in dirs || ConfigTemplate in templates
    ensures Config(home) in files || Config(home) in dirs ==>
      Read(InstalledFiles(files, dirs, home, templates, cli, iso), Config(home)) == Read(files, Config(home))
    ensures Config(home) !in files && Config(home) !in dirs ==>
      Read(InstalledFiles(files, dirs, home, templates, cli, iso), Config(home)) == Some(templates[ConfigTemplate])
    ensures Soul(home) in files || Soul(home) in dirs ==>
      Read(InstalledFiles(files, dirs, home, templates, cli, iso), Soul(home)) == Read(files, Soul(home))
    ensures Soul(home) !in files && Soul(home) !in dirs ==>
      Read(InstalledFiles(files, dirs, home, templates, cli, iso), Soul(home)) == Some(FreshSoul())
  {
    InstallPaths(home, iso);
    InstalledRead(files, dirs, home, templates, cli, iso, Config(home));
    InstalledRead(files, dirs, home, templates, cli, iso, Soul(home));
    SnapshotOnlyInside(files, home, iso, Config(home));
    SnapshotOnlyInside(files, home, iso, Soul(home));
  }

  /** The snapshot of a completed run holds the old text of each backed-up
      file at its path relative to the OpenClaw root. */
  lemma InstalledSnapshot(files: map<Path, string>, dirs: set<Path>, home: Path,
                          templates: map<Path, string>, cli: string, iso: string, p: Path)
    requires TemplatesPresent(templates)
    requires Config(home) in files || Config(home) in dirs || ConfigTemplate in templates
    requires p in BackupSources(home) && p in files
    ensures |Root(home)| < |p|
    ensures Read(InstalledFiles(files, dirs, home, templates, cli, iso), BackupDest(home, SnapshotDir(home, iso), p))
            == Some(files[p])
  {
    var snap := SnapshotDir(home, iso);
    var dest := BackupDest(home, snap, p);
    assert Inside(snap, dest);
    InstalledInsideSnapshot(files, dirs, home, templates, cli, iso, dest);
    SnapshotHolds(files, home, snap, p);
  }

  /** Inside its own snapshot directory, a completed run leaves the old files
      with the snapshot laid over them. */
  lemma InstalledInsideSnapshot(files: map<Path, string>, dirs: set<Path>, home: Path,
                                templates: map<Path, string>, cli: string, iso: string, q: Path)
    requires TemplatesPresent(templates)
    requires Config(home) in files || Config(home) in dirs || ConfigTemplate in templates
    requires Inside(SnapshotDir(home, iso), q)
    ensures Read(InstalledFiles(files, dirs, home, templates, cli, iso), q) ==
            Read(files + ExpectedSnapshot(files, home, SnapshotDir(home, iso)), q)
  {
    SourcesOutsideSnapshot(home, iso);
    InstalledRead(files, dirs, home, templates, cli, iso, q);
  }

  /** SOUL.md has no place in a snapshot: whatever the files, the snapshot never
      holds a `workspace/SOUL.md`. */
  lemma SoulNeverBackedUp(files: map<Path, string>, home: Path, snap: Path)
    ensures snap + ["workspace", "SOUL.md"] !in ExpectedSnapshot(files, home, snap)
  {
    var n := |snap|;
    assert (snap + ["workspace", "SOUL.md"])[n + 1] == "SOUL.md";
  }

  /** Everything in a snapshot sits under one of two top-level names, which is
      what `revert` copies into the workspace. */
  lemma SnapshotTopLevel(files: map<Path, string>, home: Path, snap: Path)
    ensures forall q :: q in ExpectedSnapshot(files, home, snap) ==>
      |q| > |snap| && q[..|snap|] == snap && (q[|snap|] == "workspace" || q[|snap|] == ".deterministic.json")
  {
  }

  /** Installing again rewrites the same text: outside the second run's
      snapshot, a second install leaves the disk as the first left it. */
  lemma ReinstallSameText(files: map<Path, string>, dirs: set<Path>, dirs1: set<Path>, home: Path,
                          templates: map<Path, string>, cli: string, iso1: string, iso2: string, p: Path)
    requires TemplatesPresent(templates)
    requires Config(home) in files || Config(home) in dirs || ConfigTemplate in templates
    requires dirs <= dirs1
    requires !Inside(SnapshotDir(home, iso2), p)
    ensures var once := InstalledFiles(files, dirs, home, templates, cli, iso1);
      Read(InstalledFiles(once, dirs1, home, templates, cli, iso2), p) == Read(once, p)
  {
    var once := InstalledFiles(files, dirs, home, templates, cli, iso1);
    InstalledUserFiles(files, dirs, home, templates, cli, iso1);
    assert Config(home) in once || Config(home) in dirs1;
    assert Soul(home) in once || Soul(home) in dirs1;
    InstalledStamps(files, dirs, home, templates, cli, iso1, ManagedFiles(home)[0]);
    InstalledStamps(files, dirs, home, templates, cli, iso1, ManagedFiles(home)[1]);
    InstalledStamps(files, dirs, home, templates, cli, iso1, ManagedFiles(home)[2]);
    InstalledRead(once, dirs1, home, templates, cli, iso2, p);
    SnapshotOnlyInside(once, home, iso2, p);
  }
}
