/**
 * `hexToColorIndex`, which the terminal builder and the creature spawner
 * both define with the same eight-colour table.
 */
module Palette {
  import opened Text

  const ColorTable: map<string, nat> := map[
    "#ff0000" := 0, "#00ff00" := 1, "#0000ff" := 2, "#ffff00" := 3,
    "#ff00ff" := 4, "#00ffff" := 5, "#ffffff" := 6, "#000000" := 7]

  /**
   * The table entry of the lower-cased colour, or 6 through `|| 6`, which
   * also replaces red's index 0: the result is never 0.
   */
  function HexToColorIndex(hex: string): (r: nat)
    ensures 1 <= r <= 7
    ensures ToLower(hex) !in ColorTable ==> r == 6
    ensures ToLower(hex) in ColorTable && ToLower(hex) != "#ff0000" ==> r == ColorTable[ToLower(hex)]
  {
    var key := ToLower(hex);
    if key in ColorTable && ColorTable[key] != 0 then ColorTable[key] else 6
  }

  /** Red, written in any case, reads as white's index. */
  lemma RedReadsAsWhite()
    ensures HexToColorIndex("#FF0000") == 6 && HexToColorIndex("#ff0000") == HexToColorIndex("#ffffff")
  {
    assert ToLower("#FF0000") == "#ff0000";
    assert ToLower("#ff0000") == "#ff0000";
    assert ToLower("#ffffff") == "#ffffff";
  }

  /** Apart from red and white, distinct table colours get distinct indices. */
  lemma TableColoursDistinct(a: string, b: string)
    requires ToLower(a) in ColorTable && ToLower(b) in ColorTable
    requires ToLower(a) !in {"#ff0000", "#ffffff"} && ToLower(b) !in {"#ff0000", "#ffffff"}
    ensures HexToColorIndex(a) == HexToColorIndex(b) <==> ToLower(a) == ToLower(b)
  {
  }
}
