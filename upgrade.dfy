/** `upgrade`: re-stamps every installed managed file whose stamp names another
    version than the running CLI, replacing the whole file with the template. */
module Upgrade {

  import opened Common
  import opened FileSys
  import opened Layout
  import opened Stamp

  /** The command's fixed list, relative to the workspace; the same relative
      path names the template in the package's templates directory. */
  const UpgradeList: seq<Path> :=
    [["OPERATING_RULES.md"], ["SOUL.deterministic.md"], ["skills", "memory-compactor", "SKILL.md"]]

  /** The files after some of the list has been processed, and whether an
      exception ended the run. */
  datatype Run = Run(files: map<Path, string>, crashed: bool)

  /** `upgradeFile(rel)`: skip a file that is not there; read the installed file
      and then the template (either read can throw); keep a file already at the
      CLI version; otherwise write the re-stamped template unless in dry-run. */
  function UpgradeOne(files: map<Path, string>, dirs: set<Path>, templates: map<Path, string>,
                      home: Path, cli: string, dry: bool, rel: Path): Run
  {
    var target := Workspace(home) + rel;
    if target !in files && target !in dirs then Run(files, false)
    else if target !in files then Run(files, true)
    else if rel !in templates then Run(files, true)
    else if ExtractVersion(files[target]) == Some(cli) then Run(files, false)
    else if dry then Run(files, false)
    else Run(files[target := Restamped(cli, templates[rel])], false)
  }

  /** `files.forEach(upgradeFile)` over the first |rels| entries: an exception
      stops the loop with the files written so far. */
  function UpgradeAll(files: map<Path, string>, dirs: set<Path>, templates: map<Path, string>,
                      home: Path, cli: string, dry: bool, rels: seq<Path>): Run
    decreases |rels|
  {
    if rels == [] then Run(files, false)
    else
      var prev := UpgradeAll(files, dirs, templates, home, cli, dry, rels[..|rels| - 1]);
      if prev.crashed then prev
      else UpgradeOne(prev.files, dirs, templates, home, cli, dry, rels[|rels| - 1])
  }

  /** One file's step, on the filesystem. */
  method UpgradeFile(fs: FileSystem, home: Path, templates: map<Path, string>,
                     cli: string, dry: bool, rel: Path) returns (ok: bool)
    requires fs.Valid()
    modifies fs
    ensures fs.Valid() && fs.dirs == old(fs.dirs)
    ensures Run(fs.files, !ok) == UpgradeOne(old(fs.files), old(fs.dirs), templates, home, cli, dry, rel)
  {
    var target := Workspace(home) + rel;
    if !fs.Exists(target) {
      return true;
    }
    if target !in fs.files {
      // reading a directory throws
      return false;
    }
    var installed := fs.files[target];
    if rel !in templates {
      // reading a missing template throws
      return false;
    }
    var template := templates[rel];
    if ExtractVersion(installed) == Some(cli) {
      return true;
    }
    if !dry {
      // the target is an existing file, so this write cannot fail
      var _ := fs.WriteFile(target, Restamped(cli, template));
    }
    return true;
  }

  /** `files.forEach(upgradeFile)`: false when an exception ended the loop. */
  method UpgradeFiles(fs: FileSystem, home: Path, templates: map<Path, string>, cli: string, dry: bool)
    returns (ok: bool)
    requires fs.Valid()
    modifies fs
    ensures fs.Valid() && fs.dirs == old(fs.dirs)
    ensures Run(fs.files, !ok) == UpgradeAll(old(fs.files), old(fs.dirs), templates, home, cli, dry, UpgradeList)
  {
    ghost var files0, dirs0 := fs.files, fs.dirs;
    var i := 0;
    while i < |UpgradeList|
      invariant 0 <= i <= |UpgradeList|
      invariant fs.Valid() && fs.dirs == dirs0
      invariant Run(fs.files, false) == UpgradeAll(files0, dirs0, templates, home, cli, dry, UpgradeList[..i])
    {
      UpgradeAllStep(files0, dirs0, templates, home, cli, dry, UpgradeList, i);
      ok := UpgradeFile(fs, home, templates, cli, dry, UpgradeList[i]);
      if !ok {
        CrashStays(files0, dirs0, templates, home, cli, dry, UpgradeList, i + 1);
        assert UpgradeList[..|UpgradeList|] == UpgradeList;
        return;
      }
      i := i + 1;
    }
    assert UpgradeList[..i] == UpgradeList;
    ok := true;
  }

  /** The whole command: the host check, then the list. */
  method Upgrade(fs: FileSystem, home: Path, templates: map<Path, string>, cli: string, dry: bool)
    returns (o: Outcome)
    requires fs.Valid()
    modifies fs
    ensures fs.Valid() && fs.dirs == old(fs.dirs)
    ensures !old(fs.Exists(Root(home)) && fs.Exists(Workspace(home))) ==>
      o == Exited(1) && fs.files == old(fs.files)
    ensures old(fs.Exists(Root(home)) && fs.Exists(Workspace(home))) ==>
      && fs.files == UpgradeAll(old(fs.files), old(fs.dirs), templates, home, cli, dry, UpgradeList).files
      && (o == Crashed <==> UpgradeAll(old(fs.files), old(fs.dirs), templates, home, cli, dry, UpgradeList).crashed)
      && (o == Exited(0) || o == Crashed)
    ensures dry ==> fs.files == old(fs.files)
  {
    if !fs.Exists(Root(home)) || !fs.Exists(Workspace(home)) {
      return Exited(1);
    }
    DryRunWritesNothing(fs.files, fs.dirs, templates, home, cli, UpgradeList);
    var ok := UpgradeFiles(fs, home, templates, cli, dry);
    o := if ok then Exited(0) else Crashed;
  }

  /** Processing one more entry of the list: nothing after a crash, else that
      entry's step. */
  lemma UpgradeAllStep(files: map<Path, string>, dirs: set<Path>, templates: map<Path, string>,
                       home: Path, cli: string, dry: bool, rels: seq<Path>, i: nat)
    requires i < |rels|
    ensures var prev := UpgradeAll(files, dirs, templates, home, cli, dry, rels[..i]);
      UpgradeAll(files, dirs, templates, home, cli, dry, rels[..i + 1]) ==
        if prev.crashed then prev else UpgradeOne(prev.files, dirs, templates, home, cli, dry, rels[i])
  {
    assert rels[..i + 1][..i] == rels[..i];
  }

  /** Once a run has crashed, processing more of the list changes nothing. */
  lemma {:induction false} CrashStays(files: map<Path, string>, dirs: set<Path>, templates: map<Path, string>,
                                      home: Path, cli: string, dry: bool, rels: seq<Path>, k: nat)
    requires k <= |rels|
    requires UpgradeAll(files, dirs, templates, home, cli, dry, rels[..k]).crashed
    ensures UpgradeAll(files, dirs, templates, home, cli, dry, rels) ==
            UpgradeAll(files, dirs, templates, home, cli, dry, rels[..k])
    decreases |rels| - k
  {
    if k < |rels| {
      assert rels[..k + 1][..k] == rels[..k];
      CrashStays(files, dirs, templates, home, cli, dry, rels, k + 1);
    } else {
      assert rels[..k] == rels;
    }
  }

  /** Dry-run performs no write, whatever the files hold. */
  lemma {:induction false} DryRunWritesNothing(files: map<Path, string>, dirs: set<Path>,
                                               templates: map<Path, string>, home: Path, cli: string,
                                               rels: seq<Path>)
    ensures UpgradeAll(files, dirs, templates, home, cli, true, rels).files == files
    decreases |rels|
  {
    if rels != [] {
      DryRunWritesNothing(files, dirs, templates, home, cli, rels[..|rels| - 1]);
    }
  }

  /** Content with no stamp the regex recognises reads as null, which never
      equals the CLI version, so the file is rewritten with the stamped template. */
  lemma UnstampedIsRewritten(files: map<Path, string>, dirs: set<Path>, templates: map<Path, string>,
                             home: Path, cli: string, rel: Path)
    requires Workspace(home) + rel in files && rel in templates
    requires forall j: nat :: !MatchesAt(files[Workspace(home) + rel], j)
    ensures UpgradeOne(files, dirs, templates, home, cli, false, rel) ==
            Run(files[Workspace(home) + rel := Restamped(cli, templates[rel])], false)
  {
  }

  /** A managed file that is present, has its template, and whose stamp the
      regex reads back as the CLI version. An absent file is settled too. */
  predicate Settled(files: map<Path, string>, dirs: set<Path>, templates: map<Path, string>,
                    home: Path, cli: string, rel: Path)
  {
    var target := Workspace(home) + rel;
    (target !in files && target !in dirs) ||
    (target in files && rel in templates && ExtractVersion(files[target]) == Some(cli))
  }

  /** A step only ever changes its own target. */
  lemma UpgradeOneFrame(files: map<Path, string>, dirs: set<Path>, templates: map<Path, string>,
                        home: Path, cli: string, dry: bool, rel: Path, p: Path)
    requires p != Workspace(home) + rel
    ensures SameAt(UpgradeOne(files, dirs, templates, home, cli, dry, rel).files, files, p)
  {
  }

  lemma DistinctTargets(home: Path, rel1: Path, rel2: Path)
    requires rel1 != rel2
    ensures Workspace(home) + rel1 != Workspace(home) + rel2
  {
    var ws := Workspace(home);
    assert (ws + rel1)[|ws|..] == rel1;
    assert (ws + rel2)[|ws|..] == rel2;
  }

  /** After a run that did not crash, every file of the list is settled. */
  lemma {:induction false} RunSettles(files: map<Path, string>, dirs: set<Path>,
                                      templates: map<Path, string>, home: Path, cli: string,
                                      rels: seq<Path>)
    requires IsPlainVersion(cli)
    requires forall i, j :: 0 <= i < j < |rels| ==> rels[i] != rels[j]
    requires !UpgradeAll(files, dirs, templates, home, cli, false, rels).crashed
    ensures forall rel :: rel in rels ==>
      Settled(UpgradeAll(files, dirs, templates, home, cli, false, rels).files, dirs, templates, home, cli, rel)
    decreases |rels|
  {
    if rels != [] {
      var init := rels[..|rels| - 1];
      var last := rels[|rels| - 1];
      var prev := UpgradeAll(files, dirs, templates, home, cli, false, init);
      RunSettles(files, dirs, templates, home, cli, init);
      var next := UpgradeOne(prev.files, dirs, templates, home, cli, false, last);
      if Workspace(home) + last in prev.files && ExtractVersion(prev.files[Workspace(home) + last]) != Some(cli) {
        StampedRoundTrip(cli, templates[last]);
      }
      forall rel | rel in rels
        ensures Settled(next.files, dirs, templates, home, cli, rel)
      {
        if rel != last {
          assert rel in init;
          DistinctTargets(home, rel, last);
          UpgradeOneFrame(prev.files, dirs, templates, home, cli, false, last, Workspace(home) + rel);
        }
      }
    }
  }

  /** A run over settled files writes nothing and does not crash. */
  lemma {:induction false} SettledRunIsNoOp(files: map<Path, string>, dirs: set<Path>,
                                            templates: map<Path, string>, home: Path, cli: string,
                                            dry: bool, rels: seq<Path>)
    requires forall rel :: rel in rels ==> Settled(files, dirs, templates, home, cli, rel)
    ensures UpgradeAll(files, dirs, templates, home, cli, dry, rels) == Run(files, false)
    decreases |rels|
  {
    if rels != [] {
      SettledRunIsNoOp(files, dirs, templates, home, cli, dry, rels[..|rels| - 1]);
      assert rels[|rels| - 1] in rels;
    }
  }

  /** Running upgrade a second time changes nothing: after one run that did not
      crash, a second run (dry or not) is a no-op, provided the CLI version is
      made only of digits and dots. */
  lemma UpgradeTwiceIsOnce(files: map<Path, string>, dirs: set<Path>, templates: map<Path, string>,
                           home: Path, cli: string, dry: bool)
    requires IsPlainVersion(cli)
    requires !UpgradeAll(files, dirs, templates, home, cli, false, UpgradeList).crashed
    ensures var once := UpgradeAll(files, dirs, templates, home, cli, false, UpgradeList);
            UpgradeAll(once.files, dirs, templates, home, cli, dry, UpgradeList) == once
  {
    RunSettles(files, dirs, templates, home, cli, UpgradeList);
    var once := UpgradeAll(files, dirs, templates, home, cli, false, UpgradeList);
    SettledRunIsNoOp(once.files, dirs, templates, home, cli, dry, UpgradeList);
  }

  /** `install` names the compactor template `memory-compactor.SKILL.md`, while
      upgrade reads `skills/memory-compactor/SKILL.md`. If the package ships only
      the former and the compactor is installed, every non-dry or dry run ends
      in an exception at that file. */
  lemma CompactorTemplateMismatch(files: map<Path, string>, dirs: set<Path>, templates: map<Path, string>,
                                  home: Path, cli: string, dry: bool)
    requires ["skills", "memory-compactor", "SKILL.md"] !in templates
    requires Compactor(home) in files
    ensures UpgradeAll(files, dirs, templates, home, cli, dry, UpgradeList).crashed
  {
    var first := UpgradeAll(files, dirs, templates, home, cli, dry, UpgradeList[..1]);
    var prev := UpgradeAll(files, dirs, templates, home, cli, dry, UpgradeList[..2]);
    assert UpgradeList[..1][..0] == [];
    assert UpgradeAll(files, dirs, templates, home, cli, dry, []) == Run(files, false);
    assert UpgradeList[..1][0] == UpgradeList[0];
    assert UpgradeList[..2][..1] == UpgradeList[..1];
    assert UpgradeList[..3] == UpgradeList;
    assert first == UpgradeOne(files, dirs, templates, home, cli, dry, UpgradeList[0]);
    assert !first.crashed ==> prev == UpgradeOne(first.files, dirs, templates, home, cli, dry, UpgradeList[1]);
    DistinctTargets(home, UpgradeList[0], UpgradeList[2]);
    DistinctTargets(home, UpgradeList[1], UpgradeList[2]);
    assert Workspace(home) + UpgradeList[2] == Compactor(home);
    UpgradeOneFrame(files, dirs, templates, home, cli, dry, UpgradeList[0], Compactor(home));
    UpgradeOneFrame(first.files, dirs, templates, home, cli, dry, UpgradeList[1], Compactor(home));
    assert !prev.crashed ==> Compactor(home) in prev.files;
  }
}
