/** The one-line version stamp that `install` and `upgrade` put at the head of
    every managed file, and the regular expression `upgrade` reads it back with. */
module Stamp {

  import opened Common

  /** The text the stamp and `VERSION_REGEX` share, up to the version number. */
  const Product: string := "Installed by openclaw-deterministic v"

  /** `VERSION_STAMP`: an HTML comment naming the CLI version. */
  function StampLine(version: string): string {
    "<!-- " + Product + version + " -->"
  }

  const Bom: char := '\U{FEFF}'

  /** Reading a template drops one leading byte-order mark, if there is one. */
  function StripBom(raw: string): (r: string)
    ensures raw == r || raw == [Bom] + r
    ensures |raw| > 0 && raw[0] == Bom ==> raw == [Bom] + r
  {
    if |raw| > 0 && raw[0] == Bom then raw[1..] else raw
  }

  /** What `install` writes for a template: stamp, newline, template without its BOM. */
  function Stamped(version: string, raw: string): string {
    StampLine(version) + "\n" + StripBom(raw)
  }

  /** What `upgrade` writes for a template: stamp, newline, template as read. */
  function Restamped(version: string, template: string): string {
    StampLine(version) + "\n" + template
  }

  /** The character class `[0-9.]` of the capture group. */
  predicate IsVersionChar(c: char) {
    '0' <= c <= '9' || c == '.'
  }

  /** A version that the capture group can return whole: digits and dots only. */
  predicate IsPlainVersion(v: string) {
    |v| > 0 && forall i :: 0 <= i < |v| ==> IsVersionChar(v[i])
  }

  /** The greedy group `([0-9.]+)`: the longest prefix made of version characters. */
  function VersionRun(s: string): (r: string)
    ensures |r| <= |s| && r == s[..|r|]
    ensures forall i :: 0 <= i < |r| ==> IsVersionChar(r[i])
    ensures |r| < |s| ==> !IsVersionChar(s[|r|])
  {
    if s == [] || !IsVersionChar(s[0]) then [] else [s[0]] + VersionRun(s[1..])
  }

  /** `VERSION_REGEX` matches starting at index i of s. */
  predicate MatchesAt(s: string, i: nat) {
    i + |Product| < |s| && s[i..i + |Product|] == Product && IsVersionChar(s[i + |Product|])
  }

  /** The leftmost match at or after i, as a regex search finds it. */
  function FirstMatchFrom(s: string, i: nat): (r: Option<nat>)
    requires i <= |s|
    decreases |s| - i
    ensures r.Some? ==> i <= r.value && MatchesAt(s, r.value)
    ensures r.Some? ==> forall j: nat :: i <= j < r.value ==> !MatchesAt(s, j)
    ensures r.None? ==> forall j: nat :: i <= j ==> !MatchesAt(s, j)
  {
    if i == |s| then None
    else if MatchesAt(s, i) then Some(i)
    else FirstMatchFrom(s, i + 1)
  }

  /** `getInstalledVersion`: group 1 of the leftmost match, or null (None). */
  function ExtractVersion(content: string): (r: Option<string>)
    ensures r.None? <==> forall j: nat :: !MatchesAt(content, j)
    ensures r.Some? ==> IsPlainVersion(r.value)
    ensures r.Some? ==> exists i: nat :: && MatchesAt(content, i)
                                         && (forall j: nat :: j < i ==> !MatchesAt(content, j))
                                         && r.value == VersionRun(content[i + |Product|..])
  {
    match FirstMatchFrom(content, 0)
    case None => None
    case Some(i) => Some(VersionRun(content[i + |Product|..]))
  }

  /** The capture group stops where the version ends. */
  lemma VersionRunOfPlain(v: string, rest: string)
    requires forall i :: 0 <= i < |v| ==> IsVersionChar(v[i])
    requires rest == [] || !IsVersionChar(rest[0])
    ensures VersionRun(v + rest) == v
  {
    var s := v + rest;
    assert forall k :: 0 <= k < |v| ==> s[k] == v[k];
    assert |v| < |s| ==> s[|v|] == rest[0];
    assert s[..|v|] == v;
  }

  /** Any text that opens with the stamp's comment and a plain version, followed by
      something other than a version character, yields that version. */
  lemma ExtractAfterOpening(v: string, rest: string)
    requires IsPlainVersion(v)
    requires rest == [] || !IsVersionChar(rest[0])
    ensures ExtractVersion("<!-- " + Product + v + rest) == Some(v)
  {
    var s := "<!-- " + Product + v + rest;
    var n := |Product|;
    assert s == "<!-- " + Product + (v + rest);
    assert s[5..5 + n] == Product;
    assert s[5 + n..] == v + rest;
    assert MatchesAt(s, 5);
    forall j: nat | j < 5 ensures !MatchesAt(s, j) {
      assert s[j] == "<!-- "[j];
      assert Product[0] == 'I';
    }
    var r := ExtractVersion(s);
    var i: nat :| && MatchesAt(s, i)
                  && (forall j: nat :: j < i ==> !MatchesAt(s, j))
                  && r.value == VersionRun(s[i + n..]);
    assert i == 5;
    VersionRunOfPlain(v, rest);
  }

  /** s starts with the line `line` followed by a newline. */
  predicate FirstLineIs(s: string, line: string) {
    |line| < |s| && s[..|line|] == line && s[|line|] == '\n' &&
    forall i :: 0 <= i < |line| ==> s[i] != '\n'
  }

  /** The stamp is an HTML comment holding the product text and then the
      version, and it is a single line when the version is. */
  lemma StampLineShape(version: string)
    ensures var r := StampLine(version);
      && |r| == |Product| + |version| + 9
      && r[..5] == "<!-- " && r[|r| - 4..] == " -->"
      && r[5..5 + |Product|] == Product && r[5 + |Product|..5 + |Product| + |version|] == version
      && ('\n' !in version ==> '\n' !in r)
  {
    var r, n := StampLine(version), 5 + |Product|;
    if '\n' !in version {
      forall i | 0 <= i < |r| ensures r[i] != '\n' {
        if i < n {
          assert r[i] == ("<!-- " + Product)[i];
        } else if i < n + |version| {
          assert r[i] == version[i - n];
        } else {
          assert r[i] == " -->"[i - n - |version|];
        }
      }
    }
  }

  /** A stamped file is the stamp as its whole first line, then the template
      without its BOM; upgrade's rewrite is the same with the template as read,
      so the two agree on a template without a BOM. */
  lemma StampedLayout(version: string, raw: string)
    requires '\n' !in version
    ensures FirstLineIs(Stamped(version, raw), StampLine(version))
    ensures Stamped(version, raw)[|StampLine(version)| + 1..] == StripBom(raw)
    ensures FirstLineIs(Restamped(version, raw), StampLine(version))
    ensures Restamped(version, raw)[|StampLine(version)| + 1..] == raw
    ensures StripBom(raw) == raw ==> Restamped(version, raw) == Stamped(version, raw)
  {
    StampLineShape(version);
  }

  /** The round trip `upgrade` relies on: for a version of digits and dots, the
      version read back from a stamped file is the version stamped, whatever
      the body holds, because the head stamp is the leftmost match. */
  lemma StampRoundTrip(v: string, body: string)
    requires IsPlainVersion(v)
    ensures ExtractVersion(StampLine(v) + "\n" + body) == Some(v)
  {
    assert StampLine(v) + "\n" + body == "<!-- " + Product + v + (" -->\n" + body);
    ExtractAfterOpening(v, " -->\n" + body);
  }

  lemma StampedRoundTrip(v: string, raw: string)
    requires IsPlainVersion(v)
    ensures ExtractVersion(Stamped(v, raw)) == Some(v)
    ensures ExtractVersion(Restamped(v, raw)) == Some(v)
  {
    StampRoundTrip(v, StripBom(raw));
    StampRoundTrip(v, raw);
  }

  /** A pre-release version such as 1.2.0-beta is read back cut at the hyphen,
      so it never compares equal to the version that was stamped. */
  lemma PrereleaseNotRecovered(body: string)
    ensures ExtractVersion(StampLine("1.2.0-beta") + "\n" + body) == Some("1.2.0")
  {
    var rest := "-beta -->\n" + body;
    assert StampLine("1.2.0-beta") + "\n" + body == "<!-- " + Product + "1.2.0" + rest;
    assert rest[0] == '-';
    ExtractAfterOpening("1.2.0", rest);
  }
}
