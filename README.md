# openclaw-deterministic: a Dafny model of the file-sync commands

openclaw-deterministic is a command-line tool. It lays a "deterministic
governance overlay" into an OpenClaw agent workspace (`~/.openclaw/workspace`).
This project models its commands as operations on a small in-memory
filesystem and proves what each command does to the disk:

- `install` snapshots the three managed files and the config under
  `~/.openclaw/backups/deterministic/<timestamp>/`, skipping those that do
  not exist. The config is saved too, although install never overwrites it.
  It then writes three templates with a version-stamp comment at their head.
  It creates the config and `SOUL.md` only where they are missing.
- `upgrade` reads the stamp back with a regular expression. It re-stamps every
  file whose stamp names another version than the running CLI, and also every
  file in which the regular expression finds no stamp at all.
- `enable` creates `SOUL.md` holding the overlay block when it is missing,
  without asking. When `SOUL.md` exists without the overlay marker, it
  appends the block only after the user types `APPROVED`.
- `status` runs `doctor --json` and reduces its JSON record to OK, DEGRADED or
  CRITICAL, with a distinguishing exit code.
- `audit` compares each installed file with its template and reports drift.
- `revert` lists the snapshots, or copies one snapshot's entries back into the
  workspace.

The disk is a `FileSys.FileSystem` object. Its `files` field maps a path (a
sequence of segments) to text, and its `dirs` field is a set of directory
paths. Every command method changes that object and states its new file
contents, and which directories it may have created.
The command methods are proved against specification functions
(`Install.InstalledFiles`, `Upgrade.UpgradeAll`, `Enable.NextSoul`,
`Revert.RestoreEffect`). Lemmas then say what those functions imply.

An uncaught exception is the outcome `Crashed`. Node prints it and exits
with status 1. `process.exit(n)` is `Exited(n)`.

The `Scenarios` module chains the commands on one disk. Three things about
the code as written follow from it:

- `audit` right after `install` reports all three files as drifted. `install`
  puts a stamp line above each template, and `audit` compares the whole file
  with the bare template (`Scenarios.AuditAfterInstall`).
- `upgrade` looks up the compactor template as
  `skills/memory-compactor/SKILL.md`. `install` and `audit` use
  `memory-compactor.SKILL.md`. With a package that ships only install's name,
  `upgrade` throws at that file (`Upgrade.CompactorTemplateMismatch`,
  `Scenarios.UpgradeAfterInstall`).
- `revert --to` does not undo an `install`:
  - The snapshot keeps workspace files under `workspace/...` and the config at
    its top level.
  - `restoreBackup` copies each top-level entry into the workspace itself.
  - So no saved file returns to its place. When a managed file had been saved,
    the restore throws on the `workspace` directory entry
    (`Scenarios.RevertAfterInstall`).

The model follows the code as written, including these behaviours:

- `audit` diffs whole files; no stamp region is stripped before comparing.
- `audit` always exits 0, whether or not it found drift (bin/audit.js:86).
- A restore copies only the snapshot's top-level entries, into the
  workspace directory itself (bin/revert.js:34-46).
- `upgrade` has no drift check, no content hashes and no `--force`
  (bin/upgrade.js).
- The shipped `doctor` prints plain text and ignores `--json`
  (bin/doctor.js:11-46). `status` therefore never parses its output, and as
  shipped it always ends CRITICAL with exit 6, or 5 when the spawn itself
  fails (`Status.RunFailuresFirst`).
- `bin/cli.js` dispatches only `doctor`, `install`, `init` and `--version`.
  `revert`, `audit`, `upgrade`, `enable` and `status` are run as their own
  scripts. `revert` reads its arguments as `process.argv.slice(3)`, so run
  directly it drops its first user argument; `Revert.Revert` takes that
  slice as `args`.

Three inputs become parameters:

- `home` stands for the home directory.
- `iso` stands for the clock's ISO-8601 string.
- `cli` stands for the package version.

The package's templates directory is a read-only map `templates` keyed by
relative path.

## Model

| member | source | states |
|---|---|---|
| FileSys.FileSystem.MakeDirs | bin/install.js:73 | `mkdir -p` succeeds exactly when no prefix of the path is a regular file. It then adds every prefix as a directory and leaves the files alone. |
| FileSys.FileSystem.WriteFile | bin/install.js:82 | `writeFileSync` succeeds exactly when the target is not a directory and its parent is one. On success only the target changes, to the new text. |
| FileSys.FileSystem.CopyFile | bin/install.js:111 | `copyFileSync` succeeds exactly when the source is a regular file and the destination can be written. On success only the destination changes, to the source's text. |
| FileSys.EntriesExact | bin/revert.js:38 | `readdirSync` lists a name exactly when the child path with that name exists as a file or a directory. |
| Install.EnsureDir | bin/install.js:70-74 | An existing path, or a dry run, leaves the disk alone. Otherwise `mkdir -p` runs, and it fails exactly when a file blocks the path. |
| Install.Write | bin/install.js:76-83 | Outside a dry run, the parent is created and then the file is written. It succeeds exactly when the target is writable. Only that file changes, and directories grow only along its parent's path. |
| Install.SnapshotName | bin/install.js:89-92 | The snapshot name is the ISO time with every ':' replaced by '-', at the same length and contains no ':'. |
| Install.BackupSnapshot | bin/install.js:94-115 | A dry run changes nothing. A run that completes adds exactly the expected snapshot to the disk, and the snapshot directory then exists. A run that throws has copied some proper prefix of the source list and nothing else. It completes whenever no file blocks the snapshot's path and no source or its destination is a directory (`BackupReady`). |
| Install.CopySources | bin/install.js:104-112 | The loop copies the sources in order and stops at the first that throws. On success the snapshot holds every source that was a regular file. It succeeds whenever `BackupReady` holds at the start, and each copy keeps `BackupReady`. |
| Install.CopySource | bin/install.js:105-111 | A missing source is skipped. An existing source is copied to its place in the snapshot. The step succeeds exactly when the source is absent, or is a regular file whose destination is writable. |
| Install.BackupDestinations | bin/install.js:107-108 | A workspace file goes to `<snapshot>/workspace/<name>` and the config to `<snapshot>/.deterministic.json`. |
| Install.SnapshotSpelledOut | bin/install.js:104-112 | Copying the source list in order yields exactly the written-out snapshot map. |
| Install.BackupFilesInside | bin/install.js:104-112 | Every path the copy loop writes lies inside the snapshot directory. |
| Install.SourcesOutsideSnapshot | bin/install.js:204-211 | None of the backed-up sources lies inside a snapshot directory. |
| Install.CopyWithVersionStamp | bin/install.js:117-131 | A missing template throws, even in a dry run. Otherwise the destination gets the stamp line, a newline and the template without its BOM, exactly when it is writable. |
| Install.InstallTemplates | bin/install.js:136-143 | The compactor directory is made, then the three templates are stamped into place in order. Only those three paths ever change. A completed run writes each stamped template. It completes whenever all three templates ship, no file blocks the compactor directory's path and none of the three targets is a directory (`TemplatesReady`). |
| Install.InstallConfigIfMissing | bin/install.js:145-166 | An existing config is left alone. A missing config with no config template refuses with exit 1, dry run or not. Otherwise the template is copied, outside a dry run. |
| Install.BootstrapSoulIfMissing | bin/install.js:168-185 | An existing SOUL.md is left alone. Otherwise, outside a dry run, SOUL.md is created holding the overlay block. |
| Install.BackupAndStamp | bin/install.js:213-220 | Backup then templates: safe at every stopping point. The config and SOUL.md are untouched, and a completed pair gives the snapshot plus the stamped templates. A completed real run leaves the snapshot directory in place. Outside a dry run it completes whenever `BackupReady` and `TemplatesReady` hold at the start. |
| Install.Install | bin/install.js:190-230 | A missing host root or workspace exits 1 unchanged. A dry run writes nothing, crashes on a missing template and exits 1 on a missing config template. A completed run leaves exactly `InstalledFiles`. Every run, however it ends, changes only install's own paths, keeps an existing config and SOUL.md, and overwrites a managed file only after its old text is in the snapshot. A real run on a present host that does not crash leaves the snapshot directory in place. A real run refused for a missing config template (exit 1) leaves the snapshot plus the stamped templates. On a disk where `BackupReady` and `TemplatesReady` hold, a real run exits 0, or exits 1 exactly when both the config and its template are missing. |
| Install.InstalledRead | bin/install.js:213-222 | After a completed run, each path reads as the last write to it: SOUL.md or the config where they were absent, the stamped templates, the snapshot, or the old text. |
| Install.InstalledStamps | bin/install.js:119 | After a completed run, each managed file holds the stamp line above its template. |
| Install.InstalledVersion | bin/install.js:19 | For a version of digits and dots, the stamp of each installed managed file reads back as that version. |
| Install.InstalledUserFiles | bin/install.js:145-185 | An existing config or SOUL.md is unchanged. A missing config gets the template, and a missing SOUL.md gets the overlay block. |
| Install.InstalledSnapshot | bin/install.js:104-112 | After a completed run, the snapshot holds the old text of each backed-up source that existed. |
| Install.InstalledInsideSnapshot | bin/install.js:94-115 | Inside its own snapshot directory, a completed run leaves exactly the old disk plus the snapshot. |
| Install.SoulNeverBackedUp | bin/install.js:204-211 | SOUL.md has no place in any snapshot. |
| Install.SnapshotTopLevel | bin/install.js:107-108 | Every snapshot entry sits under `workspace` or is `.deterministic.json`. |
| Install.ReinstallSameText | bin/install.js:136-185 | A second install over the first leaves every path outside its own snapshot as the first left it. |
| Install.ReadyOnPlainHome | bin/install.js:94-143 | On a home holding only the workspace directories and regular files at the managed paths, SOUL.md and the config, with the three templates shipped, both readiness conditions hold, so a real install there completes. |
| Stamp.StampLineShape | bin/install.js:19 | `Stamp.StampLine` is `VERSION_STAMP`: an HTML comment `<!-- ... -->` holding the product text and then the version, on a single line when the version has no newline. |
| Stamp.StampedLayout | bin/install.js:119 | `Stamp.Stamped` is what `copyWithVersionStamp` writes: the stamp as the whole first line, then the template with its BOM removed. `Stamp.Restamped` is upgrade's rewrite (bin/upgrade.js:69): the same first line, then the template as read. On a template without a BOM the two agree. |
| Stamp.StripBom | bin/install.js:119 | At most one leading byte-order mark is removed, and one is always removed when present. |
| Stamp.VersionRun | bin/upgrade.js:17 | The greedy `[0-9.]+` group is the longest prefix of version characters. |
| Stamp.FirstMatchFrom | bin/upgrade.js:47 | The result is the leftmost index at or after i where the regex matches, or none when it matches nowhere. |
| Stamp.ExtractVersion | bin/upgrade.js:46-49 | `getInstalledVersion` returns null exactly when the regex matches nowhere. Otherwise it returns a run of digits and dots taken at a match. |
| Stamp.ExtractAfterOpening | bin/upgrade.js:17 | Text opening with the stamp's comment and a plain version, followed by a non-version character, reads back that version. |
| Stamp.StampRoundTrip | bin/install.js:19 | Reading the stamp line back yields the version it was written with, whatever follows it. |
| Stamp.StampedRoundTrip | bin/upgrade.js:69 | Both install's and upgrade's stamped texts read back the version they were stamped with. |
| Stamp.PrereleaseNotRecovered | bin/upgrade.js:17 | A stamp for `1.2.0-beta` reads back as `1.2.0`. |
| JsText.TrimEnd | bin/enable.js:46 | `trimEnd` returns the longest prefix that does not end in whitespace, and everything it drops is whitespace. |
| JsText.TrimStart | bin/enable.js:57 | The start-side half of `trim`: the longest suffix that does not start with whitespace, and everything it drops is whitespace. |
| JsText.IncludesMiddle | bin/enable.js:41 | A text built around the needle `includes` it. |
| Overlay.TrimmedOverlay | bin/enable.js:10-15 | `OVERLAY_BLOCK.trim()` is the marker heading followed by the body. |
| Overlay.OverlayHasMarker | bin/enable.js:10-15 | Any text opening with the overlay block includes the marker. |
| Overlay.FreshSoul | bin/enable.js:34 | A newly created SOUL.md is the trimmed block plus a newline, and it includes the marker. |
| Enable.Updated | bin/enable.js:46 | `updated` keeps the user's text without trailing whitespace as a prefix, and it includes the marker. |
| Enable.NextSoulEnabled | bin/enable.js:31-65 | After an absent file, a file already marked, or an approved run, SOUL.md carries the marker. |
| Enable.EnableIdempotent | bin/enable.js:41-44 | Once the overlay is in, a second `enable` leaves SOUL.md as it is, whatever is typed. |
| Enable.ApprovalGate | bin/enable.js:56-62 | A SOUL.md without the marker changes if and only if the trimmed input is exactly `APPROVED`. |
| Enable.Enable | bin/enable.js:26-65 | A missing workspace exits 1. Once the workspace exists, it exits 0 or crashes. Success writes only SOUL.md, and the result is `NextSoul`. Any other outcome leaves the disk unchanged. It crashes exactly when SOUL.md is a directory, or absent and not creatable. |
| Audit.Audit | bin/audit.js:41-86 | One report per managed file, in order, from the checks in their source order. An installed path that is a directory is compared through the file of the template's name inside it, as `diff` does. `driftFound` holds iff some file is not Matches, iff some file is not installed as its template's exact text. The exit status is 0 either way. |
| Audit.CheckFileOutcomes | bin/audit.js:41-76 | `Audit.CheckFile` is the per-file decision: MissingInstalled exactly when the installed path is absent, MissingTemplate exactly when it exists but the template does not, Matches exactly when it exists and is in line, and DiffFailed only when the template exists and the installed path is not a regular file. |
| Audit.ComparedSource | bin/audit.js:55-58 | `Audit.Compared` is the text `diff -u` reads: the installed file when it is a regular file, otherwise a file directly inside the installed directory. |
| Audit.MatchesIffInLine | bin/audit.js:42-76 | A managed file is reported as matching exactly when what `diff` compares holds the template's exact text. |
| Audit.StampedFileDrifts | bin/audit.js:55-66 | A file holding the stamp line above its template always shows as drift. |
| Status.IntegrityFailure | bin/status.js:40-45 | Failure is found iff some entry is present with `valid === false` and no `null` entry comes before it. It throws iff a `null` entry comes before any failing one. |
| Status.Status | bin/status.js:13-58 | Exit 0 means OK, {2,3,5,6} means CRITICAL and {1,4} means DEGRADED. It throws exactly on a `null` record, or on a `null` integrity entry reached before a failing one once the earlier checks pass. |
| Status.RunFailuresFirst | bin/status.js:13-26 | A failed spawn is CRITICAL/5 and unparsable output is CRITICAL/6. |
| Status.HostMissingDominates | bin/status.js:28-32 | A missing host or workspace is CRITICAL/2, whatever else the record says. |
| Status.HardLimitDominates | bin/status.js:34-38 | Over the hard limit is CRITICAL/3, whatever the integrity and risk fields say. |
| Status.IntegrityFailureDegrades | bin/status.js:40-49 | A failing integrity entry with no earlier `null` gives DEGRADED/4, ahead of the risk check. |
| Status.RiskOrOk | bin/status.js:51-58 | With no failing entry, the result is DEGRADED/1 at the risk threshold and OK/0 otherwise. |
| Upgrade.UpgradeFile | bin/upgrade.js:51-72 | One step matches `UpgradeOne`:<br>- a missing file is skipped;<br>- a directory or a missing template throws;<br>- a file at the CLI version is kept;<br>- any other file is replaced by the re-stamped template, unless in a dry run. |
| Upgrade.UpgradeFiles | bin/upgrade.js:81 | The loop's files and crash flag are `UpgradeAll` over the fixed list. |
| Upgrade.Upgrade | bin/upgrade.js:74-84 | A missing host root or workspace exits 1 unchanged. Otherwise the disk becomes `UpgradeAll`, the run exits 0 or crashes, and it crashes exactly when `UpgradeAll` does. A dry run changes nothing. |
| Upgrade.CrashStays | bin/upgrade.js:81 | After a step throws, the rest of the list changes nothing. |
| Upgrade.DryRunWritesNothing | bin/upgrade.js:38-44 | A dry run writes nothing, whatever the files hold. |
| Upgrade.UnstampedIsRewritten | bin/upgrade.js:60-71 | A file whose stamp the regex cannot find is replaced by the re-stamped template. |
| Upgrade.UpgradeOneFrame | bin/upgrade.js:51-72 | A step changes only its own target. |
| Upgrade.RunSettles | bin/upgrade.js:62-71 | After a run that did not crash, every listed file is missing or stamped with the CLI version. |
| Upgrade.SettledRunIsNoOp | bin/upgrade.js:55-65 | A run over settled files writes nothing and does not crash, dry or not. |
| Upgrade.UpgradeTwiceIsOnce | bin/upgrade.js:81 | A second upgrade after one that did not crash changes nothing. |
| Upgrade.CompactorTemplateMismatch | bin/upgrade.js:22 | With the compactor template only under install's name, any upgrade that reaches an installed compactor crashes. |
| Revert.ListBackups | bin/revert.js:14-28 | The listing fails iff the backups root is a regular file. Any listing of backups is a non-empty set of names under a backups directory. |
| Revert.ListingExact | bin/revert.js:20-27 | "No backups" means no snapshot exists. Otherwise a name is listed iff that snapshot exists. |
| Revert.RestoreBackup | bin/revert.js:30-49 | The restore meets `RestoreEffect`:<br>- a missing snapshot exits 1 unchanged, and a snapshot that is a file throws unchanged;<br>- otherwise it exits 0 iff every entry is a regular file the workspace can take;<br>- only workspace children named after entries change, each to its old text or the snapshot's;<br>- on exit 0, all of them hold the snapshot's text. |
| Revert.RestoreKeeps | bin/revert.js:40-46 | A restore leaves every path it does not target unchanged. |
| Revert.CopyEntries | bin/revert.js:40-46 | The copy loop, in any `readdirSync` order, stops at the first copy that throws. It ends with every entry's target at its old or snapshot text, and no other path changed. |
| Revert.CopyEntry | bin/revert.js:41-44 | A successful copy adds the entry to the restored set. A failed copy changes nothing and means the entry was not restorable. |
| Revert.Revert | bin/revert.js:51-59 | `--list` shows `ListBackups` and writes nothing. It crashes iff the listing fails. `--to <ts>` performs the restore. Anything else writes nothing and exits 0. |
| Scenarios.AuditAfterInstall | bin/audit.js:54-76 | Right after a completed install, every managed file is reported Drifted. |
| Scenarios.EnableAfterInstall | bin/enable.js:41-44 | The SOUL.md that install creates already carries the marker, so `enable` keeps it, whatever is typed. |
| Scenarios.UpgradeAfterInstall | bin/upgrade.js:19-23 | Right after an install at a plain version, `upgrade` writes nothing and crashes, dry or not, when the package has only install's compactor name. |
| Scenarios.SnapshotEntries | bin/install.js:107-108 | A fresh snapshot's only entries are `workspace` and `.deterministic.json`. |
| Scenarios.RevertAfterInstall | bin/revert.js:40-46 | Restoring the snapshot an install just made puts none of the backed-up paths back. The restore crashes whenever a managed file had been saved. |
| Scenarios.RevertKeepsSources | bin/revert.js:42-44 | Restoring a snapshot whose only entries are `workspace` and `.deterministic.json` writes none of the backed-up paths. |
| Scenarios.RevertCrashesOnSaved | bin/revert.js:44 | A snapshot holding a file under `workspace/` cannot be restored: copying that directory throws. |
| Scenarios.SavedUnderWorkspace | bin/install.js:107-111 | A completed install keeps each saved workspace file's old text under the snapshot's `workspace` directory. |

## Left out

- Console output is not modelled: messages, the dry-run notices, the diff text `audit` prints and the names `revert --list` prints.
- `init`, `doctor`, `cli` and `index` (bin/init.js, bin/doctor.js, bin/cli.js, index.js) are not part of this model. `status` takes the doctor run's parsed result as an input.
- Status.Status: the doctor's JSON is abstracted to the fields `status` reads and their truthiness. JSON values that the record cannot represent, such as a non-string `semanticStatus`, are not modelled.
- Status.Status: a thrown TypeError exits with Node's status 1. That is the same number as DEGRADED/1, and the model keeps the crash as its own outcome.
- The clock, the home directory and `package.json` are parameters (`iso`, `home`, `cli`). The templates directory is a read-only map and is never written.
- File permissions and error codes such as EACCES, symbolic links, and byte encodings (text is a sequence of characters) are not modelled. A write fails only when the target is a directory or its parent is missing.
- Audit.Audit: the external `diff -u` is modelled as text equality between the template and the installed file. When the installed path is a directory, the comparison uses the file of the template's name inside it, as `diff` does with one directory operand; when that file is missing the outcome is DiffFailed. Other `diff` failures (unreadable files, a templates entry that is a directory) are not modelled.
- Revert.CopyEntries: the order of `readdirSync` entries is a nondeterministic choice. Which entries are copied before a failure depends on it, so the contract states per entry that the target holds the old text or the snapshot's, not the exact set.
- Revert.ListBackups: the listing is a set of names. Printing order is not modelled.
- Install.Install: on an exception it states which paths may have changed and that every overwritten managed file was saved first, not the exact partial disk.
- Snapshot-name collisions are not modelled: two installs in the same millisecond share a snapshot directory. The scenario lemmas assume a fresh snapshot (`Scenarios.FreshSnapshot`).
- Revert.Revert: the `--to` timestamp is taken as one literal path segment. `path.join` would normalise `..` and split on `/`, so a timestamp that climbs out of the backups directory is not modelled.
- Enable.Enable: standard input is the first chunk it delivers (None when it closes without data). Reading more than one chunk is not modelled.
- The SHA-256 integrity hashes, `--force` and the size thresholds belong to `doctor` and are not part of this model.
- Install.BackupSnapshot: success is promised under `BackupReady`, a sufficient condition. The exact condition, which also admits odd disks such as a file on the snapshot path when no source exists, is not stated.
- Install.CopySources: success is promised under `BackupReady`, a sufficient condition, not an exact one.
- Install.InstallTemplates: success is promised under `TemplatesReady`, a sufficient condition. Exactly when it fails on other disks is stated only step by step, through `CopyWithVersionStamp` and `EnsureDir`.
- Install.BackupAndStamp: success is promised under `BackupReady` and `TemplatesReady` together, a sufficient condition, not an exact one.
- Install.Install: the exit code of a real run is pinned down only on disks where `BackupReady` and `TemplatesReady` hold. Elsewhere the contract states what may have changed, not whether the run crashes.
