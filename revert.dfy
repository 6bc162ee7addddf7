/** `oc-deterministic revert`: list the backup snapshots, or copy the entries
    of one snapshot back into the workspace. */
module Revert {

  import opened Common
  import opened FileSys
  import opened Layout

  /** What `revert --list` finds under the backups root. */
  datatype Listing = NoBackups | Backups(names: set<string>) | ListFailed

  /** `listBackups`: no backups root, or an empty one, is reported as having no
      backups; a backups root that is a regular file makes `readdirSync` throw. */
  function ListBackups(files: map<Path, string>, dirs: set<Path>, home: Path): (l: Listing)
    ensures l.ListFailed? <==> BackupsRoot(home) in files
    ensures l.Backups? ==> BackupsRoot(home) in dirs && l.names != {}
  {
    var root := BackupsRoot(home);
    if root !in files && root !in dirs then NoBackups
    else if root in files then ListFailed
    else if EntriesOf(files, dirs, root) == {} then NoBackups
    else Backups(EntriesOf(files, dirs, root))
  }

  /** On a well-formed disk the listing names exactly the snapshots that exist,
      and "no backups" means there is none. */
  lemma ListingExact(files: map<Path, string>, dirs: set<Path>, home: Path, n: string)
    requires WellFormed(files, dirs)
    ensures var l := ListBackups(files, dirs, home);
      var present := Child(BackupsRoot(home), n) in files || Child(BackupsRoot(home), n) in dirs;
      && (l == NoBackups ==> !present)
      && (l.Backups? ==> (n in l.names <==> present))
  {
    EntriesExact(files, dirs, BackupsRoot(home), n);
  }

  /** A workspace path that restoring a snapshot with entries `names` may write:
      the workspace child carrying the name of one of them. */
  predicate RestoreTarget(ws: Path, names: set<string>, p: Path) {
    |p| == |ws| + 1 && p[..|ws|] == ws && p[|ws|] in names
  }

  /** `copyFileSync` of entry e succeeds: the entry is a regular file, the
      workspace is a directory and holds no directory named e. */
  ghost predicate Restorable(files: map<Path, string>, dirs: set<Path>, snap: Path, ws: Path, e: string) {
    Child(snap, e) in files && ws in dirs && Child(ws, e) !in dirs
  }

  /** What `restoreBackup(ts)` does to the files, in whatever order `readdirSync`
      returns the entries: a missing snapshot exits 1 and a snapshot that is a
      regular file throws, both without change; otherwise each entry is copied
      to the workspace child of the same name until one copy throws, and
      nothing else is written. */
  ghost predicate RestoreEffect(files0: map<Path, string>, dirs0: set<Path>, files: map<Path, string>,
                                home: Path, ts: string, o: Outcome)
  {
    var snap := Child(BackupsRoot(home), ts);
    var ws := Workspace(home);
    if snap !in files0 && snap !in dirs0 then o == Exited(1) && files == files0
    else if snap in files0 then o == Crashed && files == files0
    else
      var names := EntriesOf(files0, dirs0, snap);
      && (o == Exited(0) || o == Crashed)
      && (o == Exited(0) <==> forall e :: e in names ==> Restorable(files0, dirs0, snap, ws, e))
      && (forall p :: !RestoreTarget(ws, names, p) ==> Read(files, p) == Read(files0, p))
      && (forall e :: e in names ==>
            Read(files, Child(ws, e)) == Read(files0, Child(ws, e)) ||
            Read(files, Child(ws, e)) == Read(files0, Child(snap, e)))
      && (o == Exited(0) ==> forall e :: e in names ==> Read(files, Child(ws, e)) == Read(files0, Child(snap, e)))
  }

  /** A restore leaves every path it does not target as it was. */
  lemma RestoreKeeps(files0: map<Path, string>, dirs0: set<Path>, files: map<Path, string>,
                     home: Path, ts: string, o: Outcome, p: Path)
    requires RestoreEffect(files0, dirs0, files, home, ts, o)
    requires !RestoreTarget(Workspace(home), EntriesOf(files0, dirs0, Child(BackupsRoot(home), ts)), p)
    ensures Read(files, p) == Read(files0, p)
  {
  }

  /** `restoreBackup(ts)`. */
  method RestoreBackup(fs: FileSystem, home: Path, ts: string) returns (o: Outcome)
    requires fs.Valid()
    modifies fs
    ensures fs.Valid() && fs.dirs == old(fs.dirs)
    ensures RestoreEffect(old(fs.files), old(fs.dirs), fs.files, home, ts, o)
  {
    var backupDir := Child(BackupsRoot(home), ts);
    if !fs.Exists(backupDir) {
      return Exited(1);
    }
    if backupDir !in fs.dirs {
      return Crashed;
    }
    o := CopyEntries(fs, backupDir, Workspace(home), fs.Entries(backupDir));
  }

  /** After the entries in done were copied from snap: each of them was a
      regular file the workspace could take, its workspace child now holds that
      file's text, and no other path changed. */
  ghost predicate RestoredSoFar(files0: map<Path, string>, dirs0: set<Path>, files: map<Path, string>,
                                snap: Path, ws: Path, done: set<string>)
  {
    && (forall e :: e in done ==> Restorable(files0, dirs0, snap, ws, e))
    && (forall e :: e in done ==> Read(files, Child(ws, e)) == Read(files0, Child(snap, e)))
    && (forall p :: !RestoreTarget(ws, done, p) ==> Read(files, p) == Read(files0, p))
  }

  /** The `files.forEach` loop of `restoreBackup`: copy each entry of snap to
      the workspace child of the same name, stopping at the first copy that
      throws. */
  method CopyEntries(fs: FileSystem, snap: Path, ws: Path, names: set<string>) returns (o: Outcome)
    requires fs.Valid() && snap != ws
    modifies fs
    ensures fs.Valid() && fs.dirs == old(fs.dirs)
    ensures o == Exited(0) || o == Crashed
    ensures o == Exited(0) <==> forall e :: e in names ==> Restorable(old(fs.files), old(fs.dirs), snap, ws, e)
    ensures forall p :: !RestoreTarget(ws, names, p) ==> Read(fs.files, p) == Read(old(fs.files), p)
    ensures forall e :: e in names ==>
              Read(fs.files, Child(ws, e)) == Read(old(fs.files), Child(ws, e)) ||
              Read(fs.files, Child(ws, e)) == Read(old(fs.files), Child(snap, e))
    ensures o == Exited(0) ==> forall e :: e in names ==> Read(fs.files, Child(ws, e)) == Read(old(fs.files), Child(snap, e))
  {
    var remaining := names;
    ghost var done: set<string> := {};
    while remaining != {}
      invariant fs.Valid() && fs.dirs == old(fs.dirs)
      invariant done == names - remaining && remaining <= names
      invariant RestoredSoFar(old(fs.files), old(fs.dirs), fs.files, snap, ws, done)
      decreases remaining
    {
      var e :| e in remaining;
      var ok := CopyEntry(fs, snap, ws, e, old(fs.files), old(fs.dirs), done);
      if !ok {
        Stopped(old(fs.files), old(fs.dirs), fs.files, snap, ws, done, names);
        return Crashed;
      }
      remaining := remaining - {e};
      done := done + {e};
    }
    return Exited(0);
  }

  /** One copy of the loop: on success the entry joins the copied ones, on
      failure the entry was not restorable and nothing changed. */
  method CopyEntry(fs: FileSystem, snap: Path, ws: Path, e: string,
                   ghost files0: map<Path, string>, ghost dirs0: set<Path>, ghost done: set<string>) returns (ok: bool)
    requires fs.Valid() && fs.dirs == dirs0 && snap != ws && e !in done
    requires RestoredSoFar(files0, dirs0, fs.files, snap, ws, done)
    modifies fs
    ensures fs.Valid() && fs.dirs == dirs0
    ensures ok ==> RestoredSoFar(files0, dirs0, fs.files, snap, ws, done + {e})
    ensures !ok ==> !Restorable(files0, dirs0, snap, ws, e) && fs.files == old(fs.files)
  {
    SourceNotTarget(snap, ws, e, done);
    ok := fs.CopyFile(Child(snap, e), Child(ws, e));
  }

  /** Where the loop stops at a failed entry, every entry's workspace child
      holds either its old text or the snapshot's. */
  lemma Stopped(files0: map<Path, string>, dirs0: set<Path>, files: map<Path, string>,
                snap: Path, ws: Path, done: set<string>, names: set<string>)
    requires done <= names
    requires RestoredSoFar(files0, dirs0, files, snap, ws, done)
    ensures forall p :: !RestoreTarget(ws, names, p) ==> Read(files, p) == Read(files0, p)
    ensures forall e :: e in names ==>
              Read(files, Child(ws, e)) == Read(files0, Child(ws, e)) ||
              Read(files, Child(ws, e)) == Read(files0, Child(snap, e))
  {
    forall e | e in names
      ensures Read(files, Child(ws, e)) == Read(files0, Child(ws, e)) || Read(files, Child(ws, e)) == Read(files0, Child(snap, e))
    {
      if e !in done {
        assert !RestoreTarget(ws, done, Child(ws, e));
      }
    }
  }

  /** A snapshot entry is never one of the workspace paths being restored. */
  lemma SourceNotTarget(snap: Path, ws: Path, e: string, done: set<string>)
    requires snap != ws
    ensures !RestoreTarget(ws, done, Child(snap, e))
  {
    if |snap| == |ws| {
      assert Child(snap, e)[..|snap|] == snap;
    }
  }

  /** The command-line dispatch: `--list`, `--to <timestamp>` with a non-empty
      timestamp, or the usage text. Only a restore changes the disk. `args` is
      `process.argv.slice(3)`, which skips one argument as if a subcommand
      name came first; the command-line entry point does not dispatch
      `revert`, so run directly the script drops its first user argument. */
  method Revert(fs: FileSystem, home: Path, args: seq<string>) returns (o: Outcome, shown: Option<Listing>)
    requires fs.Valid()
    modifies fs
    ensures fs.Valid() && fs.dirs == old(fs.dirs)
    ensures |args| > 0 && args[0] == "--list" ==>
              && shown == Some(ListBackups(old(fs.files), old(fs.dirs), home))
              && o == (if shown.value.ListFailed? then Crashed else Exited(0))
              && fs.files == old(fs.files)
    ensures |args| > 1 && args[0] == "--to" && args[1] != "" ==>
              shown == None && RestoreEffect(old(fs.files), old(fs.dirs), fs.files, home, args[1], o)
    ensures !(|args| > 0 && args[0] == "--list") && !(|args| > 1 && args[0] == "--to" && args[1] != "") ==>
              shown == None && o == Exited(0) && fs.files == old(fs.files)
  {
    shown := None;
    if |args| > 0 && args[0] == "--list" {
      var l := ListBackups(fs.files, fs.dirs, home);
      shown := Some(l);
      o := if l.ListFailed? then Crashed else Exited(0);
    } else if |args| > 1 && args[0] == "--to" && args[1] != "" {
      o := RestoreBackup(fs, home, args[1]);
    } else {
      o := Exited(0);
    }
  }
}
