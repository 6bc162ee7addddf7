/** `status`: runs `doctor --json` and reduces its record to one verdict and a
    distinguishing exit code. Spawning and parsing are abstract inputs here. */
module Status {

  import opened Common

  /** One value of the record's `integrity` object: `null`, or something whose
      `present` field is truthy or not and whose `valid` field is a boolean
      (Some) or anything else (None). */
  datatype IntegrityEntry = NullEntry | Entry(present: bool, valid: Option<bool>)

  /** The parsed doctor record; the booleans stand for the fields' truthiness and
      `integrity` is None when that field is falsy. */
  datatype DoctorRecord = DoctorRecord(
    openclawDetected: bool,
    workspaceDetected: bool,
    semanticStatus: string,
    integrity: Option<seq<IntegrityEntry>>)

  /** What `JSON.parse(result.stdout)` gives: a syntax error, the literal `null`
      (whose fields cannot be read), or a value read as a record. */
  datatype Parsed = InvalidJson | JsonNull | Record(rec: DoctorRecord)

  /** `spawnSync` either fails to start the child (`result.error`) or yields its output. */
  datatype DoctorRun = SpawnFailed | Spawned(output: Parsed)

  datatype Verdict = Ok | Degraded | Critical

  /** A verdict with its exit code, or a TypeError thrown while reading the record. */
  datatype StatusResult = Report(verdict: Verdict, code: nat) | StatusCrashed

  /** `x.present && x.valid === false`. */
  predicate Failing(e: IntegrityEntry) {
    e.Entry? && e.present && e.valid == Some(false)
  }

  /** `Object.values(integrity).some(...)`: Some(true) at the first failing entry,
      None when a `null` entry is reached first (reading `null.present` throws). */
  function IntegrityFailure(es: seq<IntegrityEntry>): (r: Option<bool>)
    ensures r == Some(true) <==>
      exists i :: 0 <= i < |es| && Failing(es[i]) && forall j :: 0 <= j < i ==> es[j] != NullEntry
    ensures r == None <==>
      exists i :: 0 <= i < |es| && es[i] == NullEntry && forall j :: 0 <= j < i ==> !Failing(es[j])
  {
    if es == [] then Some(false)
    else if es[0] == NullEntry then None
    else if Failing(es[0]) then Some(true)
    else
      var r := IntegrityFailure(es[1..]);
      assert forall i :: 1 <= i < |es| ==> es[i] == es[1..][i - 1];
      r
  }

  /** The if-chain of the command, in its order. */
  function Status(run: DoctorRun): (r: StatusResult)
    ensures r.Report? ==> (r.code == 0 <==> r.verdict == Ok)
    ensures r.Report? ==> (r.verdict == Critical <==> r.code in {2, 3, 5, 6})
    ensures r.Report? ==> (r.verdict == Degraded <==> r.code in {1, 4})
    ensures r == StatusCrashed <==> (
      || run == Spawned(JsonNull)
      || (&& run.Spawned? && run.output.Record?
          && run.output.rec.openclawDetected && run.output.rec.workspaceDetected
          && run.output.rec.semanticStatus != "hard-limit-exceeded"
          && run.output.rec.integrity.Some?
          && IntegrityFailure(run.output.rec.integrity.value).None?))
  {
    match run
    case SpawnFailed => Report(Critical, 5)
    case Spawned(InvalidJson) => Report(Critical, 6)
    case Spawned(JsonNull) => StatusCrashed
    case Spawned(Record(d)) =>
      if !d.openclawDetected || !d.workspaceDetected then Report(Critical, 2)
      else if d.semanticStatus == "hard-limit-exceeded" then Report(Critical, 3)
      else if d.integrity.Some? && IntegrityFailure(d.integrity.value).None? then StatusCrashed
      else if d.integrity.Some? && IntegrityFailure(d.integrity.value) == Some(true) then Report(Degraded, 4)
      else if d.semanticStatus == "risk-threshold" then Report(Degraded, 1)
      else Report(Ok, 0)
  }

  /** Spawn and parse failures are decided before any field is read. */
  lemma RunFailuresFirst()
    ensures Status(SpawnFailed) == Report(Critical, 5)
    ensures Status(Spawned(InvalidJson)) == Report(Critical, 6)
  {
  }

  /** A missing host root or workspace is CRITICAL/2 whatever else the record says. */
  lemma HostMissingDominates(d: DoctorRecord)
    requires !d.openclawDetected || !d.workspaceDetected
    ensures Status(Spawned(Record(d))) == Report(Critical, 2)
  {
  }

  /** Over the hard limit is CRITICAL/3 whatever the integrity entries and risk say. */
  lemma HardLimitDominates(d: DoctorRecord)
    requires d.openclawDetected && d.workspaceDetected
    requires d.semanticStatus == "hard-limit-exceeded"
    ensures Status(Spawned(Record(d))) == Report(Critical, 3)
  {
  }

  /** One present entry whose `valid` is exactly false, with no `null` before it,
      gives DEGRADED/4 ahead of the risk threshold; entries that are absent or
      whose `valid` is not the boolean false never do. */
  lemma IntegrityFailureDegrades(d: DoctorRecord, i: nat)
    requires d.openclawDetected && d.workspaceDetected
    requires d.semanticStatus != "hard-limit-exceeded"
    requires d.integrity.Some? && i < |d.integrity.value|
    requires Failing(d.integrity.value[i])
    requires forall j :: 0 <= j < i ==> d.integrity.value[j] != NullEntry
    ensures Status(Spawned(Record(d))) == Report(Degraded, 4)
  {
  }

  /** With no failing entry, the verdict is DEGRADED/1 at the risk threshold and OK/0 otherwise. */
  lemma RiskOrOk(d: DoctorRecord)
    requires d.openclawDetected && d.workspaceDetected
    requires d.semanticStatus != "hard-limit-exceeded"
    requires d.integrity.Some? ==> forall i :: 0 <= i < |d.integrity.value| ==>
      d.integrity.value[i] != NullEntry && !Failing(d.integrity.value[i])
    ensures Status(Spawned(Record(d))) ==
      if d.semanticStatus == "risk-threshold" then Report(Degraded, 1) else Report(Ok, 0)
  {
  }
}
