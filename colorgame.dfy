/** The colour game: a colour word, four swatches, click the swatch the word names. */
module ColorGame {
  import opened Randomness
  import opened Geometry
  import opened Opt

  /** A colour in p5's HSB mode (hue 0..360, saturation and brightness 0..100). */
  datatype Hsb = Hsb(hue: int, saturation: int, brightness: int)

  /** `initializeColors`: BLUE, GREEN, YELLOW and PINK, in that order. */
  const Palette: seq<Hsb> := [Hsb(220, 80, 90), Hsb(120, 80, 90), Hsb(60, 80, 90), Hsb(320, 80, 90)]
  const ColorNames: seq<string> := ["BLUE", "GREEN", "YELLOW", "PINK"]

  /** `colorMatch`: the two colours agree in every channel. */
  predicate ColorMatch(c1: Hsb, c2: Hsb) {
    c1.hue == c2.hue && c1.saturation == c2.saturation && c1.brightness == c2.brightness
  }

  /** The palette holds four different colours, so matching two palette
      colours is the same as comparing their indices. */
  lemma ColorMatchIsIndexEquality(i: int, j: int)
    requires 0 <= i < |Palette| && 0 <= j < |Palette|
    ensures ColorMatch(Palette[i], Palette[j]) <==> i == j
  {
  }

  /** `floor(random(colors.length))`, as `setNewTargetColor` draws it. */
  function PickColorIndex(u: real): (i: int)
    requires IsUnit(u)
    ensures 0 <= i < |Palette|
  {
    FloorRandom(u, 0, |Palette|)
  }

  // Swatch layout of `drawColorGame` / `getClickedColorPalette`.
  const PaletteWidth: real := 160.0
  const PaletteHeight: real := 160.0
  const PaletteSpacing: real := 40.0
  const TotalPalettesWidth: real := 4.0 * PaletteWidth + 3.0 * PaletteSpacing
  const SwatchStartX: real := (CanvasWidth - TotalPalettesWidth) / 2.0
  const SwatchStartY: real := CanvasHeight - PaletteHeight - 70.0

  function SwatchX(i: int): real {
    SwatchStartX + i as real * (PaletteWidth + PaletteSpacing)
  }

  /** The pointer is strictly inside swatch `i`. */
  predicate InSwatch(i: int, mx: real, my: real) {
    InsideCorner(mx, my, SwatchX(i), SwatchStartY, PaletteWidth, PaletteHeight)
  }

  /** The swatches lie side by side with a gap: no point is in two of them. */
  lemma SwatchesDisjoint(i: int, j: int, mx: real, my: real)
    requires InSwatch(i, mx, my) && InSwatch(j, mx, my)
    ensures i == j
  {
  }

  /** `getClickedColorPalette`: scans the swatches left to right and reports
      the one under the pointer, or none. */
  method ClickedSwatch(mx: real, my: real) returns (r: Option<int>)
    ensures r.Some? ==> 0 <= r.value < |Palette|
    ensures forall i :: 0 <= i < |Palette| ==> (InSwatch(i, mx, my) <==> r == Some(i))
  {
    var i := 0;
    while i < |Palette|
      invariant 0 <= i <= |Palette|
      invariant forall k :: 0 <= k < i ==> !InSwatch(k, mx, my)
    {
      if InSwatch(i, mx, my) {
        forall k | 0 <= k < |Palette| && InSwatch(k, mx, my)
          ensures k == i
        {
          SwatchesDisjoint(k, i, mx, my);
        }
        return Some(i);
      }
      i := i + 1;
    }
    return None;
  }
}
