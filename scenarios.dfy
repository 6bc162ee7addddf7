/** How the commands meet on one disk: what `audit`, `enable`, `upgrade` and
    `revert` find on, or do to, the files a completed `install` left. */
module Scenarios {

  import opened Common
  import opened FileSys
  import opened Layout
  import opened Stamp
  import opened Overlay
  import Install
  import Audit
  import Enable
  import Upgrade
  import Revert

  /** Right after an install, `audit` reports every managed file as drifted:
      each holds its template below a stamp line, and the comparison with the
      bare template includes that line. */
  lemma AuditAfterInstall(files: map<Path, string>, dirs: set<Path>, dirs1: set<Path>, home: Path,
                          templates: map<Path, string>, cli: string, iso: string)
    requires Install.TemplatesPresent(templates)
    requires Config(home) in files || Config(home) in dirs || ConfigTemplate in templates
    ensures var installed := Install.InstalledFiles(files, dirs, home, templates, cli, iso);
      forall m :: m in ManagedFiles(home) ==>
        && Audit.CheckFile(installed, dirs1, templates, m) == Audit.Drifted
        && !Audit.InLine(installed, templates, m)
  {
    var installed := Install.InstalledFiles(files, dirs, home, templates, cli, iso);
    forall m | m in ManagedFiles(home)
      ensures Audit.CheckFile(installed, dirs1, templates, m) == Audit.Drifted
    {
      Install.InstalledStamps(files, dirs, home, templates, cli, iso, m);
      Audit.StampedFileDrifts(installed, dirs1, templates, m, cli);
    }
  }

  /** The SOUL.md that install creates already carries the overlay marker, so
      a later `enable` keeps it as it is, whatever is typed at the prompt. */
  lemma EnableAfterInstall(files: map<Path, string>, dirs: set<Path>, home: Path,
                           templates: map<Path, string>, cli: string, iso: string, input: Option<string>)
    requires Install.TemplatesPresent(templates)
    requires Config(home) in files || Config(home) in dirs || ConfigTemplate in templates
    requires Soul(home) !in files && Soul(home) !in dirs
    ensures var soul := Read(Install.InstalledFiles(files, dirs, home, templates, cli, iso), Soul(home));
      soul == Some(FreshSoul()) && Enable.NextSoul(soul, input) == FreshSoul()
  {
    Install.InstalledUserFiles(files, dirs, home, templates, cli, iso);
  }

  /** With a package that ships the compactor template only under install's
      name, `upgrade` right after an install of the same plain version finds
      the first two files current, then throws at the compactor: nothing is
      written and the run crashes, dry or not. */
  lemma UpgradeAfterInstall(files: map<Path, string>, dirs: set<Path>, dirs1: set<Path>, home: Path,
                            templates: map<Path, string>, cli: string, iso: string, dry: bool)
    requires Install.TemplatesPresent(templates)
    requires Config(home) in files || Config(home) in dirs || ConfigTemplate in templates
    requires ["skills", "memory-compactor", "SKILL.md"] !in templates
    requires IsPlainVersion(cli)
    ensures var installed := Install.InstalledFiles(files, dirs, home, templates, cli, iso);
      Upgrade.UpgradeAll(installed, dirs1, templates, home, cli, dry, Upgrade.UpgradeList) == Upgrade.Run(installed, true)
  {
    var installed := Install.InstalledFiles(files, dirs, home, templates, cli, iso);
    Install.InstalledStamps(files, dirs, home, templates, cli, iso, ManagedFiles(home)[2]);
    Install.InstalledVersion(files, dirs, home, templates, cli, iso, ManagedFiles(home)[0]);
    Install.InstalledVersion(files, dirs, home, templates, cli, iso, ManagedFiles(home)[1]);
    var list := Upgrade.UpgradeList;
    assert ManagedFiles(home)[0] == Managed(Workspace(home) + list[0], list[0]);
    assert ManagedFiles(home)[1] == Managed(Workspace(home) + list[1], list[1]);
    assert ManagedFiles(home)[2].installed == Workspace(home) + list[2];
    assert list[..1][..0] == [] && list[..2][..1] == list[..1] && list[..3] == list;
    assert Upgrade.UpgradeAll(installed, dirs1, templates, home, cli, dry, list[..1]) == Upgrade.Run(installed, false);
    assert Upgrade.UpgradeAll(installed, dirs1, templates, home, cli, dry, list[..2]) == Upgrade.Run(installed, false);
  }

  /** The snapshot directory a run writes into did not exist before it. */
  ghost predicate FreshSnapshot(files: map<Path, string>, dirs: set<Path>, home: Path, iso: string) {
    var snap := Install.SnapshotDir(home, iso);
    snap !in files && snap !in dirs &&
    forall p :: Install.Inside(snap, p) ==> p !in files && p !in dirs
  }

  /** A fresh snapshot holds nothing but a `workspace` directory and the
      config: those are the only names `revert` will see in it. */
  lemma SnapshotEntries(files: map<Path, string>, dirs: set<Path>, dirs1: set<Path>, home: Path,
                        templates: map<Path, string>, cli: string, iso: string, e: string)
    requires Install.TemplatesPresent(templates)
    requires Config(home) in files || Config(home) in dirs || ConfigTemplate in templates
    requires FreshSnapshot(files, dirs, home, iso)
    requires Install.DirsGrown(dirs, dirs1, home, iso)
    requires e in EntriesOf(Install.InstalledFiles(files, dirs, home, templates, cli, iso), dirs1, Install.SnapshotDir(home, iso))
    ensures e == "workspace" || e == ".deterministic.json"
  {
    var snap := Install.SnapshotDir(home, iso);
    var installed := Install.InstalledFiles(files, dirs, home, templates, cli, iso);
    var q := Child(snap, e);
    assert Install.Inside(snap, q);
    EntriesExact(installed, dirs1, snap, e);
    if q in installed {
      Install.InstalledInsideSnapshot(files, dirs, home, templates, cli, iso, q);
      assert q in Install.ExpectedSnapshot(files, home, snap);
      Install.SnapshotTopLevel(files, home, snap);
    } else {
      SnapshotDirEntry(dirs, dirs1, home, iso, e);
    }
  }

  /** The only directory a run creates directly in its fresh snapshot is
      `workspace`. */
  lemma SnapshotDirEntry(dirs: set<Path>, dirs1: set<Path>, home: Path, iso: string, e: string)
    requires Install.DirsGrown(dirs, dirs1, home, iso)
    requires Child(Install.SnapshotDir(home, iso), e) in dirs1 - dirs
    ensures e == "workspace"
  {
    var snap := Install.SnapshotDir(home, iso);
    var q := Child(snap, e);
    assert |Parent(Compactor(home))| < |q|;
    assert q !in Prefixes(Parent(Compactor(home)));
    var k :| 0 <= k <= |Install.SnapshotDeep(home, iso)| && q == Install.SnapshotDeep(home, iso)[..k];
    assert q[|snap|] == Install.SnapshotDeep(home, iso)[|snap|];
  }

  /** `revert --to` with the snapshot an install just made puts back none of
      what that install saved: the snapshot keeps the files under
      `workspace/...` and the config at its top, so the restore copies to
      `workspace/workspace` and `workspace/.deterministic.json`, and the
      stamped files and the config stay as install left them. When a managed
      file had been saved, the `workspace` entry is a directory and the
      restore throws. */
  lemma RevertAfterInstall(files: map<Path, string>, dirs: set<Path>, dirs1: set<Path>, home: Path,
                           templates: map<Path, string>, cli: string, iso: string,
                           files2: map<Path, string>, o: Outcome)
    requires Install.TemplatesPresent(templates)
    requires Config(home) in files || Config(home) in dirs || ConfigTemplate in templates
    requires FreshSnapshot(files, dirs, home, iso)
    requires Install.DirsGrown(dirs, dirs1, home, iso)
    requires WellFormed(Install.InstalledFiles(files, dirs, home, templates, cli, iso), dirs1)
    requires Revert.RestoreEffect(Install.InstalledFiles(files, dirs, home, templates, cli, iso), dirs1, files2,
                                  home, Install.SnapshotName(iso), o)
    ensures var installed := Install.InstalledFiles(files, dirs, home, templates, cli, iso);
      forall p :: p in Install.BackupSources(home) ==> Read(files2, p) == Read(installed, p)
    ensures Operating(home) in files || DetSoul(home) in files || Compactor(home) in files ==> o == Crashed
  {
    var installed := Install.InstalledFiles(files, dirs, home, templates, cli, iso);
    var snap := Install.SnapshotDir(home, iso);
    assert snap == Child(BackupsRoot(home), Install.SnapshotName(iso));
    forall e | e in EntriesOf(installed, dirs1, snap) ensures e == "workspace" || e == ".deterministic.json" {
      SnapshotEntries(files, dirs, dirs1, home, templates, cli, iso, e);
    }
    RevertKeepsSources(installed, dirs1, files2, home, Install.SnapshotName(iso), o);
    if Operating(home) in files || DetSoul(home) in files || Compactor(home) in files {
      var p := if Operating(home) in files then Operating(home)
               else if DetSoul(home) in files then DetSoul(home) else Compactor(home);
      SavedUnderWorkspace(files, dirs, home, templates, cli, iso, p);
      RevertCrashesOnSaved(installed, dirs1, files2, home, Install.SnapshotName(iso), o,
                           Install.BackupDest(home, snap, p));
    }
  }

  /** Restoring any snapshot whose only entries are `workspace` and
      `.deterministic.json` writes none of the backed-up paths. */
  lemma RevertKeepsSources(files1: map<Path, string>, dirs1: set<Path>, files2: map<Path, string>,
                           home: Path, ts: string, o: Outcome)
    requires Revert.RestoreEffect(files1, dirs1, files2, home, ts, o)
    requires forall e :: e in EntriesOf(files1, dirs1, Child(BackupsRoot(home), ts)) ==>
               e == "workspace" || e == ".deterministic.json"
    ensures forall p :: p in Install.BackupSources(home) ==> Read(files2, p) == Read(files1, p)
  {
    var snap := Child(BackupsRoot(home), ts);
    var ws := Workspace(home);
    var names := EntriesOf(files1, dirs1, snap);
    assert Operating(home)[|ws|] == "OPERATING_RULES.md" && DetSoul(home)[|ws|] == "SOUL.deterministic.md";
    forall p | p in Install.BackupSources(home) ensures Read(files2, p) == Read(files1, p) {
      assert !Revert.RestoreTarget(ws, names, p);
      Revert.RestoreKeeps(files1, dirs1, files2, home, ts, o, p);
    }
  }

  /** A snapshot holding a file under its `workspace` directory cannot be
      restored: copying that directory entry throws. */
  lemma RevertCrashesOnSaved(files1: map<Path, string>, dirs1: set<Path>, files2: map<Path, string>,
                             home: Path, ts: string, o: Outcome, q: Path)
    requires WellFormed(files1, dirs1)
    requires Revert.RestoreEffect(files1, dirs1, files2, home, ts, o)
    requires q in files1 && Install.Inside(Child(BackupsRoot(home), ts) + ["workspace"], q)
    ensures o == Crashed
  {
    var snap := Child(BackupsRoot(home), ts);
    var d := snap + ["workspace"];
    assert Parent(q)[..|d|] == d;
    AncestorsAreDirs(files1, dirs1, Parent(q), |d|);
    assert d[..|snap|] == snap;
    AncestorsAreDirs(files1, dirs1, d, |snap|);
    EntriesExact(files1, dirs1, snap, "workspace");
    assert !Revert.Restorable(files1, dirs1, snap, Workspace(home), "workspace");
  }

  /** A completed install keeps the old text of a saved workspace file under
      the snapshot's `workspace` directory. */
  lemma SavedUnderWorkspace(files: map<Path, string>, dirs: set<Path>, home: Path,
                            templates: map<Path, string>, cli: string, iso: string, p: Path)
    requires Install.TemplatesPresent(templates)
    requires Config(home) in files || Config(home) in dirs || ConfigTemplate in templates
    requires p == Operating(home) || p == DetSoul(home) || p == Compactor(home)
    requires p in files
    ensures var dest := Install.BackupDest(home, Install.SnapshotDir(home, iso), p);
      && dest in Install.InstalledFiles(files, dirs, home, templates, cli, iso)
      && Install.Inside(Install.SnapshotDir(home, iso) + ["workspace"], dest)
  {
    var snap := Install.SnapshotDir(home, iso);
    var dest := Install.BackupDest(home, snap, p);
    Install.BackupDestinations(home, snap);
    assert Install.Inside(snap, dest);
    Install.SnapshotHolds(files, home, snap, p);
    Install.InstalledInsideSnapshot(files, dirs, home, templates, cli, iso, dest);
  }
}
