/** The overlay block that `install` bootstraps into SOUL.md and `enable`
    appends to it; both commands declare the same template literal. */
module Overlay {

  import opened JsText

  /** The heading whose presence means the overlay is already enabled. */
  const Marker: string := "## Deterministic Governance Overlay"

  const Body: string :=
    "\n\nThis system loads and adheres to SOUL.deterministic.md as a governing philosophical constraint."

  const OverlayText: string := Marker + Body

  /** The template literal as written in both commands: the block between two newlines. */
  const OverlaySource: string := "\n" + OverlayText + "\n"

  /** Trimming a text padded by one newline on each side gives the text back,
      provided the text neither starts nor ends with whitespace. */
  lemma {:induction false} TrimPadded(t: string)
    requires t != [] && !IsJsWhitespace(t[0]) && !IsJsWhitespace(t[|t| - 1])
    ensures Trim("\n" + t + "\n") == t
  {
    var s := "\n" + t + "\n";
    assert s[..|s| - 1] == "\n" + t;
    assert TrimEnd(s) == TrimEnd("\n" + t) == "\n" + t;
    assert ("\n" + t)[1..] == t;
  }

  /** `OVERLAY_BLOCK.trim()` is the block without its surrounding newlines, and it
      starts with the marker. */
  lemma TrimmedOverlay()
    ensures Trim(OverlaySource) == OverlayText
  {
    assert Marker[0] == '#';
    assert OverlayText[0] == Marker[0];
    assert Body[|Body| - 1] == '.';
    assert OverlayText[|OverlayText| - 1] == Body[|Body| - 1];
    TrimPadded(OverlayText);
  }

  /** Text that opens with the overlay block carries the marker. */
  lemma OverlayHasMarker(tail: string)
    ensures Includes(OverlayText + tail, Marker)
  {
    assert OverlayText + tail == [] + Marker + (Body + tail);
    IncludesMiddle([], Marker, Body + tail);
  }

  /** The whole SOUL.md that both commands create when there is none: the
      trimmed block and one newline. It opens with the block, so it is enabled. */
  function FreshSoul(): (r: string)
    ensures r == OverlayText + "\n"
    ensures Includes(r, Marker)
  {
    TrimmedOverlay();
    OverlayHasMarker("\n");
    Trim(OverlaySource) + "\n"
  }
}
