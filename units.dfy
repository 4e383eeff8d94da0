/**
 * The physical-unit model: pixel distances versus centimetres at the image's
 * DPI, and snapping to a centimetre grid.
 */
module Units {
  import opened Wrappers
  import opened Geometry

  const CmPerInch: real := 2.54

  /** `pixels_to_cm`: pixels / dpi inches, times 2.54. */
  function PixelsToCm(pixels: real, dpi: int): (cm: real)
    requires dpi > 0
    ensures cm * dpi as real == pixels * CmPerInch
    ensures pixels >= 0.0 ==> cm >= 0.0
  {
    pixels / dpi as real * CmPerInch
  }

  /** `cm_to_pixels`: cm / 2.54 inches, times dpi. */
  function CmToPixels(cm: real, dpi: int): (pixels: real)
    requires dpi > 0
    ensures pixels * CmPerInch == cm * dpi as real
    ensures cm >= 0.0 ==> pixels >= 0.0
  {
    cm / CmPerInch * dpi as real
  }

  /** Converting pixels to centimetres and back gives the same pixel distance. */
  lemma PixelsCmRoundTrip(pixels: real, dpi: int)
    requires dpi > 0
    ensures CmToPixels(PixelsToCm(pixels, dpi), dpi) == pixels
  {
    var cm := PixelsToCm(pixels, dpi);
    var back := CmToPixels(cm, dpi);
    assert back * CmPerInch == cm * dpi as real;
    assert back * CmPerInch == pixels * CmPerInch;
  }

  /** Converting centimetres to pixels and back gives the same length. */
  lemma CmPixelsRoundTrip(cm: real, dpi: int)
    requires dpi > 0
    ensures PixelsToCm(CmToPixels(cm, dpi), dpi) == cm
  {
    var px := CmToPixels(cm, dpi);
    var back := PixelsToCm(px, dpi);
    assert back * dpi as real == px * CmPerInch;
    assert back * dpi as real == cm * dpi as real;
  }

  /** At 300 DPI one centimetre is 300 / 2.54 = 15000 / 127 (about 118.11) pixels. */
  lemma OneCmAt300Dpi()
    ensures CmToPixels(1.0, 300) == 15000.0 / 127.0
  {
    var px := CmToPixels(1.0, 300);
    assert px * 2.54 == 300.0;
  }

  /**
   * `snap_to_grid_position` for one coordinate pair: the identity when snapping
   * is off, otherwise each coordinate goes to round(v / g) * g. A zero grid
   * spacing makes the division raise, which is modelled as None.
   */
  function SnapToGridPosition(p: Point, snapToGrid: bool, gridSpacing: real): (r: Option<Point>)
    ensures !snapToGrid ==> r == Some(p)
    ensures snapToGrid ==> (r.None? <==> gridSpacing == 0.0)
    ensures snapToGrid && r.Some? ==>
      IsGridMultiple(r.value.x, gridSpacing) && IsGridMultiple(r.value.y, gridSpacing) &&
      Abs(r.value.x - p.x) <= Abs(gridSpacing) / 2.0 && Abs(r.value.y - p.y) <= Abs(gridSpacing) / 2.0
  {
    if !snapToGrid then Some(p)
    else if gridSpacing == 0.0 then None
    else
      var sx := SnapCoordinate(p.x, gridSpacing);
      var sy := SnapCoordinate(p.y, gridSpacing);
      Some(Point(sx, sy))
  }

  /** v is a whole number of grid steps g. */
  ghost predicate IsGridMultiple(v: real, g: real)
  {
    g != 0.0 && (v / g).Floor as real == v / g
  }

  /** round(v / g) * g: the nearest grid line, at most half a step away. */
  function SnapCoordinate(v: real, g: real): (s: real)
    requires g != 0.0
    ensures IsGridMultiple(s, g)
    ensures Abs(s - v) <= Abs(g) / 2.0
  {
    var k := RoundHalfEven(v / g);
    SnapBound(v, g, k);
    k as real * g
  }

  lemma SnapBound(v: real, g: real, k: int)
    requires g != 0.0
    requires -0.5 <= v / g - k as real <= 0.5
    ensures IsGridMultiple(k as real * g, g)
    ensures Abs(k as real * g - v) <= Abs(g) / 2.0
  {
    var q := v / g;
    assert v == q * g;
    assert k as real * g / g == k as real;
    var e := q - k as real;
    assert v - k as real * g == e * g;
    if g > 0.0 {
      assert -0.5 * g <= e * g <= 0.5 * g;
    } else {
      assert 0.5 * g <= e * g <= -0.5 * g;
    }
  }
}
