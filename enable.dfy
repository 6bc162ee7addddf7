/** `enable`: appends the overlay block to the user's SOUL.md after an explicit
    APPROVED on standard input, or creates the file when it is absent. */
module Enable {

  import opened Common
  import opened FileSys
  import opened Layout
  import opened JsText
  import opened Overlay

  /** The `updated` string: the user's text without trailing whitespace, a blank
      line, then the overlay block. The user's text survives as a prefix and the
      result carries the marker. */
  function Updated(current: string): (r: string)
    ensures |TrimEnd(current)| < |r| && r[..|TrimEnd(current)|] == TrimEnd(current)
    ensures Includes(r, Marker)
  {
    var kept := TrimEnd(current);
    var block := Trim(OverlaySource);
    TrimmedOverlay();
    assert block == Marker + Body;
    AppendedBlockIncludes(kept, Marker, Body);
    kept + "\n\n" + block + "\n"
  }

  lemma AppendedBlockIncludes(kept: string, marker: string, body: string)
    ensures (kept + "\n\n" + (marker + body) + "\n")[..|kept|] == kept
    ensures Includes(kept + "\n\n" + (marker + body) + "\n", marker)
  {
    assert kept + "\n\n" + (marker + body) + "\n" == (kept + "\n\n") + marker + (body + "\n");
    IncludesMiddle(kept + "\n\n", marker, body + "\n");
  }

  /** The line read from standard input, trimmed, must be exactly APPROVED; no
      line at all (input closed) never approves. */
  predicate Approved(input: Option<string>) {
    input.Some? && Trim(input.value) == "APPROVED"
  }

  /** The content of SOUL.md after one `enable` that does not fail, given its
      content before (None: absent) and the answer typed at the prompt. */
  function NextSoul(current: Option<string>, input: Option<string>): string {
    match current
    case None => FreshSoul()
    case Some(c) =>
      if Includes(c, Marker) then c
      else if Approved(input) then Updated(c)
      else c
  }

  /** After `enable` has done its work, SOUL.md carries the marker. */
  lemma NextSoulEnabled(current: Option<string>, input: Option<string>)
    requires current.None? || Includes(current.value, Marker) || Approved(input)
    ensures Includes(NextSoul(current, input), Marker)
  {
  }

  /** Enabling twice is enabling once: once the overlay is in, a second run
      leaves the file as it is, whatever is typed. */
  lemma EnableIdempotent(current: Option<string>, input1: Option<string>, input2: Option<string>)
    requires current.None? || Includes(current.value, Marker) || Approved(input1)
    ensures NextSoul(Some(NextSoul(current, input1)), input2) == NextSoul(current, input1)
  {
    NextSoulEnabled(current, input1);
  }

  /** The approval gate: a file without the marker changes if and only if the
      answer is APPROVED. */
  lemma ApprovalGate(current: string, input: Option<string>)
    requires !Includes(current, Marker)
    ensures NextSoul(Some(current), input) != current <==> Approved(input)
  {
    if Approved(input) {
      assert Includes(Updated(current), Marker);
    }
  }

  /** The whole command. `input` is the first chunk read from standard input. */
  method Enable(fs: FileSystem, home: Path, input: Option<string>) returns (o: Outcome)
    requires fs.Valid()
    modifies fs
    ensures fs.Valid() && fs.dirs == old(fs.dirs)
    ensures !old(fs.Exists(Workspace(home))) ==> o == Exited(1)
    ensures old(fs.Exists(Workspace(home))) ==> o == Exited(0) || o == Crashed
    ensures o == Exited(0) ==>
      fs.files == old(fs.files)[Soul(home) := NextSoul(Read(old(fs.files), Soul(home)), input)]
    ensures o != Exited(0) ==> fs.files == old(fs.files)
    ensures o == Crashed <==>
      old(fs.Exists(Workspace(home))) &&
      (old(Soul(home) in fs.dirs) || (!old(fs.Exists(Soul(home))) && !old(fs.CanWrite(Soul(home)))))
  {
    var soul := Soul(home);
    if !fs.Exists(Workspace(home)) {
      return Exited(1);
    }
    if !fs.Exists(soul) {
      var ok := fs.WriteFile(soul, FreshSoul());
      return if ok then Exited(0) else Crashed;
    }
    if soul !in fs.files {
      // readFileSync on a directory throws
      return Crashed;
    }
    var current := fs.files[soul];
    if Includes(current, Marker) {
      return Exited(0);
    }
    var updated := Updated(current);
    if !Approved(input) {
      return Exited(0);
    }
    // SOUL.md is an existing file, so this write cannot fail
    var _ := fs.WriteFile(soul, updated);
    return Exited(0);
  }
}
