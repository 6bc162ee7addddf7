/** `audit`: compares each installed managed file with its template and reports
    whether any of them drifted. It only reads. */
module Audit {

  import opened Common
  import opened FileSys
  import opened Layout
  import opened Stamp

  /** The outcome for one file: missing installed copy, missing template, the
      external `diff` failing, or `diff -u` printing nothing (Matches) or a
      difference (Drifted). */
  datatype Check = MissingInstalled | MissingTemplate | DiffFailed | Matches | Drifted

  /** The text `diff -u template installed` compares the template with: the
      installed file itself, or, when the installed path is a directory, the
      file in it named like the template (as `diff` does with one directory
      operand). None when there is no such regular file. */
  function Compared(files: map<Path, string>, m: Managed): Option<string> {
    if m.installed in files then Some(files[m.installed])
    else if m.template != [] && m.installed + [m.template[|m.template| - 1]] in files
    then Some(files[m.installed + [m.template[|m.template| - 1]]])
    else None
  }

  /** The per-file checks in their order: a missing installed file is reported
      before the template is looked at. `diff` is modelled as text equality. */
  function CheckFile(files: map<Path, string>, dirs: set<Path>,
                     templates: map<Path, string>, m: Managed): Check
  {
    if m.installed !in files && m.installed !in dirs then MissingInstalled
    else if m.template !in templates then MissingTemplate
    else if Compared(files, m).None? then DiffFailed
    else if Compared(files, m).value == templates[m.template] then Matches
    else Drifted
  }

  /** A file is in line exactly when its template is shipped and the text
      `diff` reads for the installed path equals the template's. */
  predicate InLine(files: map<Path, string>, templates: map<Path, string>, m: Managed) {
    m.template in templates && Compared(files, m) == Some(templates[m.template])
  }

  /** What `diff` compares is a regular file: the installed path itself when it
      is one, else a file directly inside the installed path. */
  lemma ComparedSource(files: map<Path, string>, m: Managed)
    ensures m.installed in files ==> Compared(files, m) == Some(files[m.installed])
    ensures Compared(files, m).Some? ==>
      exists q :: q in files && files[q] == Compared(files, m).value && (q == m.installed || Parent(q) == m.installed)
  {
    if m.installed !in files && Compared(files, m).Some? {
      var q := m.installed + [m.template[|m.template| - 1]];
      assert Parent(q) == m.installed;
    }
  }

  /** Each outcome of the per-file check and its cause: a missing installed
      path, then a missing template, and Matches exactly for a file in line. */
  lemma CheckFileOutcomes(files: map<Path, string>, dirs: set<Path>, templates: map<Path, string>, m: Managed)
    ensures var c := CheckFile(files, dirs, templates, m);
      && (c == MissingInstalled <==> m.installed !in files && m.installed !in dirs)
      && (c == MissingTemplate <==> (m.installed in files || m.installed in dirs) && m.template !in templates)
      && (c == Matches <==> (m.installed in files || m.installed in dirs) && InLine(files, templates, m))
      && (c == DiffFailed ==> m.installed !in files && m.template in templates)
  {
  }

  /** The command: one pass over the fixed list, or-ing each file's drift into
      `driftFound`; the exit status is 0 whether or not drift was found. */
  method Audit(fs: FileSystem, home: Path, templates: map<Path, string>)
    returns (driftFound: bool, report: seq<Check>, o: Outcome)
    requires fs.Valid()
    ensures |report| == |ManagedFiles(home)|
    ensures forall i :: 0 <= i < |report| ==>
      report[i] == CheckFile(fs.files, fs.dirs, templates, ManagedFiles(home)[i])
    ensures driftFound <==> exists i :: 0 <= i < |report| && report[i] != Matches
    ensures !driftFound <==> forall i :: 0 <= i < |ManagedFiles(home)| ==>
      InLine(fs.files, templates, ManagedFiles(home)[i])
    ensures o == Exited(0)
  {
    var list := ManagedFiles(home);
    driftFound, report := false, [];
    var i := 0;
    while i < |list|
      invariant 0 <= i <= |list| && |report| == i
      invariant forall j :: 0 <= j < i ==> report[j] == CheckFile(fs.files, fs.dirs, templates, list[j])
      invariant driftFound <==> exists j :: 0 <= j < i && report[j] != Matches
      invariant !driftFound <==> forall j :: 0 <= j < i ==> InLine(fs.files, templates, list[j])
    {
      var m := list[i];
      var c;
      if !fs.Exists(m.installed) {
        c := MissingInstalled;
        driftFound := true;
      } else if m.template !in templates {
        c := MissingTemplate;
        driftFound := true;
      } else if Compared(fs.files, m).None? {
        c := DiffFailed;
        driftFound := true;
      } else if Compared(fs.files, m).value == templates[m.template] {
        c := Matches;
      } else {
        c := Drifted;
        driftFound := true;
      }
      MatchesIffInLine(fs.files, fs.dirs, templates, m);
      report := report + [c];
      i := i + 1;
    }
    o := Exited(0);
  }

  /** Only a file reported as matching is in line with its template. */
  lemma MatchesIffInLine(files: map<Path, string>, dirs: set<Path>,
                         templates: map<Path, string>, m: Managed)
    requires WellFormed(files, dirs)
    ensures CheckFile(files, dirs, templates, m) == Matches <==> InLine(files, templates, m)
  {
    if m.installed !in files && m.installed !in dirs && m.template != [] {
      // a regular file inside the installed path would make it a directory
      assert Parent(m.installed + [m.template[|m.template| - 1]]) == m.installed;
    }
  }

  /** A file exactly as `install` leaves it, one stamp line above the template's
      text, always shows as drift: the comparison includes the stamp line. */
  lemma StampedFileDrifts(files: map<Path, string>, dirs: set<Path>,
                          templates: map<Path, string>, m: Managed, cli: string)
    requires m.template in templates
    requires m.installed in files && files[m.installed] == Stamped(cli, templates[m.template])
    ensures CheckFile(files, dirs, templates, m) == Drifted
  {
    var t := templates[m.template];
    assert |StampLine(cli)| > 1;
    assert |Stamped(cli, t)| > |t|;
  }
}
