/**
 * The editor's pure decision rules: canvas-to-image coordinates, zoom steps,
 * DPI and grid-size input, the throttle, viewport keys, the hole list of the
 * working image, and which section a click lands on.
 */
module EditorRules {
  import opened Wrappers
  import opened Geometry
  import opened HitTest
  import opened Sections
  import Units
  import opened Smoothing

  /** The interaction mode chosen in the toolbar. */
  datatype Mode = NoMode | Select | Move

  /** `min_update_interval`: milliseconds between two display updates of a smoothed drag. */
  const MinUpdateInterval: real := 8.0
  /** The DPI assumed when the DPI entry cannot be parsed. */
  const DefaultDpi: int := 300
  /** The grid size assumed when the grid-size entry cannot be parsed. */
  const DefaultGridSizeCm: real := 1.0

  // ---------------------------------------------------------------- coordinates

  /**
   * Canvas to image coordinates: divided by the zoom, and rounded to whole
   * pixels (half to even) unless precise mode is on.
   */
  function ImageCoordinates(canvasX: real, canvasY: real, scale: real, precise: bool): (p: Point)
    requires scale > 0.0
    ensures precise ==> p.x * scale == canvasX && p.y * scale == canvasY
    ensures !precise ==>
      p.x == p.x.Floor as real && p.y == p.y.Floor as real &&
      Abs(p.x - canvasX / scale) <= 0.5 && Abs(p.y - canvasY / scale) <= 0.5
  {
    if precise then Point(canvasX / scale, canvasY / scale)
    else Point(RoundHalfEven(canvasX / scale) as real, RoundHalfEven(canvasY / scale) as real)
  }

  // ---------------------------------------------------------------- zoom

  const MaxZoomIn: real := 10.0
  const MinZoomOut: real := 0.05
  const MinWheelScale: real := 0.01
  const MaxWheelScale: real := 50.0

  /** `zoom_in`: times 1.2, capped at 10. */
  function ZoomedIn(scale: real): (s: real)
    ensures s <= MaxZoomIn
    ensures scale * 1.2 <= MaxZoomIn ==> s == scale * 1.2
    ensures scale * 1.2 > MaxZoomIn ==> s == MaxZoomIn
  {
    Min(MaxZoomIn, scale * 1.2)
  }

  /** `zoom_out`: divided by 1.2, floored at 0.05. */
  function ZoomedOut(scale: real): (s: real)
    ensures s >= MinZoomOut
    ensures scale / 1.2 >= MinZoomOut ==> s == scale / 1.2
    ensures scale / 1.2 < MinZoomOut ==> s == MinZoomOut
  {
    Max(MinZoomOut, scale / 1.2)
  }

  /** Away from both limits, zooming out undoes zooming in. */
  lemma ZoomOutUndoesZoomIn(scale: real)
    requires MinZoomOut <= scale && scale * 1.2 <= MaxZoomIn
    ensures ZoomedOut(ZoomedIn(scale)) == scale
  {
    assert scale * 1.2 / 1.2 == scale;
  }

  /** The mouse wheel: times 1.1 for a positive delta, otherwise divided by 1.1, kept in [0.01, 50]. */
  function WheelScale(scale: real, delta: int): (s: real)
    ensures MinWheelScale <= s <= MaxWheelScale
  {
    var z := if delta > 0 then scale * 1.1 else scale / 1.1;
    Max(MinWheelScale, Min(MaxWheelScale, z))
  }

  /** The wheel's cache-clearing test: the zoom moved by more than 0.001 and by more than 30%. */
  predicate WheelClears(oldScale: real, newScale: real)
    requires oldScale > 0.0
  {
    Abs(oldScale - newScale) > 0.001 && Abs(oldScale - newScale) / oldScale > 0.3
  }

  /**
   * One wheel step changes a scale inside the wheel's range by at most a
   * tenth of it, so the wheel's cache-clearing branch (a change of more than
   * 30%) is never taken from such a scale.
   */
  lemma WheelStepIsSmall(scale: real, delta: int)
    requires MinWheelScale <= scale <= MaxWheelScale
    ensures Abs(scale - WheelScale(scale, delta)) <= scale / 10.0
    ensures !(Abs(scale - WheelScale(scale, delta)) / scale > 0.3)
    ensures !WheelClears(scale, WheelScale(scale, delta))
  {
    var s := WheelScale(scale, delta);
    var d := Abs(scale - s);
    if delta > 0 {
      assert scale <= s <= scale * 1.1;
    } else {
      assert scale / 1.1 <= s <= scale;
      assert scale - scale / 1.1 == scale / 11.0;
    }
    assert d <= scale / 10.0;
    RatioBound(d, scale);
  }

  /**
   * From a zoom outside [0.01, 50] one wheel step can clear the cache: 100
   * zoomed in is clamped to 50, and 0.005 zoomed out is raised to 0.01.
   */
  lemma WheelClearsOutsideRange()
    ensures WheelScale(100.0, 1) == 50.0 && WheelClears(100.0, 50.0)
    ensures WheelScale(0.005, -1) == 0.01 && WheelClears(0.005, 0.01)
  {
    assert Abs(100.0 - 50.0) / 100.0 == 0.5;
    assert Abs(0.005 - 0.01) / 0.005 == 1.0;
  }

  lemma RatioBound(d: real, scale: real)
    requires scale > 0.0 && d <= scale / 10.0
    ensures d / scale <= 0.1
  {
    var q := d / scale;
    assert q * scale == d;
  }

  // ---------------------------------------------------------------- settings

  /**
   * `update_dpi`: the entry is parsed as a number and truncated; a positive
   * result replaces the DPI, a non-positive one is refused, and text that is
   * not a number resets the DPI to 300. None stands for unparseable text.
   */
  function DpiAfterInput(current: int, input: Option<real>): (dpi: int)
    requires current > 0
    ensures dpi > 0
    ensures input.None? ==> dpi == DefaultDpi
    ensures input.Some? && Trunc(input.value) > 0 ==> dpi == Trunc(input.value)
    ensures input.Some? && Trunc(input.value) <= 0 ==> dpi == current
  {
    match input
    case None => DefaultDpi
    case Some(v) => if Trunc(v) > 0 then Trunc(v) else current
  }

  /** A fractional entry is truncated, and anything below 1 keeps the current DPI. */
  lemma DpiExamples()
    ensures DpiAfterInput(300, Some(150.7)) == 150
    ensures DpiAfterInput(300, Some(0.9)) == 300
    ensures DpiAfterInput(300, Some(-72.0)) == 300
    ensures DpiAfterInput(96, None) == 300
  {
    assert Trunc(150.7) == 150;
    assert Trunc(0.9) == 0;
    assert Trunc(-72.0) == -72;
  }

  /** `update_grid_size_cm`: any parsed number is taken (no positivity check), otherwise 1.0. */
  function GridSizeAfterInput(input: Option<real>): (g: real)
    ensures input.Some? ==> g == input.value
    ensures input.None? ==> g == DefaultGridSizeCm
  {
    if input.Some? then input.value else DefaultGridSizeCm
  }

  // ---------------------------------------------------------------- throttle

  /** `should_update_display`: at least 8 ms since the last accepted update. */
  predicate UpdateDue(now: real, lastUpdate: real)
  {
    now - lastUpdate >= MinUpdateInterval
  }

  /** Right after an accepted update, no further update is due for 8 ms. */
  lemma ThrottleSpacing(now: real, lastUpdate: real, later: real)
    requires UpdateDue(now, lastUpdate)
    ensures UpdateDue(later, now) <==> later >= now + MinUpdateInterval
  {
  }

  // ---------------------------------------------------------------- display cache key

  /**
   * The viewport key: the zoom to four decimals, the scroll offsets to whole
   * pixels, and the visible size. The per-image hash part is the same for
   * every key of one loaded image and is left out.
   */
  datatype ViewportKey = ViewportKey(scale: int, scrollX: int, scrollY: int, width: int, height: int)

  function KeyFor(scale: real, scrollX: real, scrollY: real, width: int, height: int): (k: ViewportKey)
    ensures Abs(k.scale as real - scale * 10000.0) <= 0.5
    ensures Abs(k.scrollX as real - scrollX) <= 0.5 && Abs(k.scrollY as real - scrollY) <= 0.5
    ensures k.width == width && k.height == height
  {
    ViewportKey(RoundHalfEven(scale * 10000.0), RoundHalfEven(scrollX), RoundHalfEven(scrollY), width, height)
  }

  /** Zoom levels that differ by less than the key's resolution share one cache entry. */
  lemma NearbyScalesShareKey()
    ensures KeyFor(1.00001, 0.0, 0.0, 800, 600) == KeyFor(1.0, 0.0, 0.0, 800, 600)
    ensures KeyFor(1.0001, 0.0, 0.0, 800, 600) != KeyFor(1.0, 0.0, 0.0, 800, 600)
  {
    RoundOfInteger(10000);
    RoundOfInteger(10001);
    RoundOfInteger(0);
    assert RoundHalfEven(1.00001 * 10000.0) == 10000;
  }

  /**
   * The working image is the original with the hole polygons punched in
   * white, in order; each hole is a boundary with its coordinates truncated.
   * A rendered bitmap is identified by the holes it was rendered from.
   */
  type Holes = seq<seq<IntPoint>>

  /** A cached display bitmap: its size and the working-image content it shows. */
  datatype DisplayEntry = DisplayEntry(width: int, height: int, content: Holes)

  /** A pyramid level: its size and the working-image content it was resampled from. */
  datatype Level = Level(width: int, height: int, content: Holes)

  /** `rebuild_working_image`: a hole for every current boundary, in list order. */
  function HolesOf(sections: seq<Section>): (h: Holes)
    ensures |h| == |sections|
    ensures forall i :: 0 <= i < |sections| ==> h[i] == TruncPath(sections[i].boundary)
  {
    seq(|sections|, i requires 0 <= i < |sections| => TruncPath(sections[i].boundary))
  }

  // ---------------------------------------------------------------- section list

  /** `pop(i)`: the list without its i-th section, the others in their order. */
  function RemovedAt(sections: seq<Section>, i: nat): (r: seq<Section>)
    requires i < |sections|
    ensures |r| == |sections| - 1
    ensures forall j :: 0 <= j < i ==> r[j] == sections[j]
    ensures forall j :: i <= j < |r| ==> r[j] == sections[j + 1]
  {
    sections[..i] + sections[i + 1..]
  }

  /** The highest index below k whose boundary contains the point. */
  function TopmostAt(sections: seq<Section>, x: real, y: real, k: nat): (r: Option<nat>)
    requires k <= |sections|
    ensures r.Some? ==> r.value < k && Inside(sections[r.value].boundary, x, y)
    ensures r.Some? ==> forall j :: r.value < j < k ==> !Inside(sections[j].boundary, x, y)
    ensures r.None? ==> forall j :: 0 <= j < k ==> !Inside(sections[j].boundary, x, y)
  {
    if k == 0 then None
    else if Inside(sections[k - 1].boundary, x, y) then Some(k - 1)
    else TopmostAt(sections, x, y, k - 1)
  }

  /**
   * `find_clipped_section_at_point`: the selected list entry if its boundary
   * contains the point, otherwise the topmost (last drawn) section that does.
   */
  function SectionAt(sections: seq<Section>, x: real, y: real, selection: Option<nat>): (r: Option<nat>)
    ensures r.Some? ==> r.value < |sections| && Inside(sections[r.value].boundary, x, y)
    ensures selection.Some? && selection.value < |sections| && Inside(sections[selection.value].boundary, x, y)
      ==> r == selection
    ensures r.Some? && r != selection ==> forall j :: r.value < j < |sections| ==> !Inside(sections[j].boundary, x, y)
    ensures r.None? ==> forall j :: 0 <= j < |sections| ==> !Inside(sections[j].boundary, x, y)
  {
    if selection.Some? && selection.value < |sections| && Inside(sections[selection.value].boundary, x, y)
    then selection
    else TopmostAt(sections, x, y, |sections|)
  }

  // ---------------------------------------------------------------- direct move

  /**
   * `move_clipped_section_direct`'s target position: the old position plus the step,
   * then snapped to the grid when snapping is on, else rounded to whole
   * pixels unless precise mode is on. None: a zero grid spacing makes the
   * snap divide by zero and the section stays where it was.
   */
  function DirectTarget(from: Point, dx: real, dy: real, snap: bool, precise: bool, gridSpacing: real): (r: Option<Point>)
    ensures !snap && precise ==> r == Some(Point(from.x + dx, from.y + dy))
    ensures !snap && !precise ==>
      && r.Some?
      && Abs(r.value.x - (from.x + dx)) <= 0.5 && Abs(r.value.y - (from.y + dy)) <= 0.5
      && r.value.x == r.value.x.Floor as real && r.value.y == r.value.y.Floor as real
    ensures snap && r.Some? ==>
      r == Units.SnapToGridPosition(Point(from.x + dx, from.y + dy), true, gridSpacing)
    ensures snap ==> (r.None? <==> gridSpacing == 0.0)
  {
    var target := Point(from.x + dx, from.y + dy);
    if snap then Units.SnapToGridPosition(target, true, gridSpacing)
    else if precise then Some(target)
    else Some(Point(RoundHalfEven(target.x) as real, RoundHalfEven(target.y) as real))
  }

  /**
   * `move_selected_section`'s delta on one axis: the arrow's direction
   * (-1, 0 or 1) times the step converted to pixels at the given DPI.
   */
  function KeyboardDelta(direction: int, stepCm: real, dpi: int): (d: real)
    requires dpi > 0
    ensures direction == 0 ==> d == 0.0
    ensures direction == 1 ==> d == Units.CmToPixels(stepCm, dpi)
    ensures direction == -1 ==> d == -Units.CmToPixels(stepCm, dpi)
  {
    direction as real * Units.CmToPixels(stepCm, dpi)
  }

  /**
   * `on_mouse_drag`'s threshold: a step from `last` to `p` acts only once it
   * reaches 0.01 pixel (precise mode) or 0.1 pixel on some axis.
   */
  predicate DragReaches(last: Point, p: Point, precise: bool)
  {
    var threshold := if precise then 0.01 else 0.1;
    Abs(p.x - last.x) >= threshold || Abs(p.y - last.y) >= threshold
  }

  // ---------------------------------------------------------------- drag move

  /** What one call of `move_clipped_section` leaves behind. */
  datatype MoveEffect = MoveEffect(sections: seq<Section>, buffer: seq<Sample>, lastUpdate: real)

  /**
   * `move_clipped_section`: an index out of range changes nothing. Without
   * smoothing the section moves by exactly (dx, dy). With smoothing the
   * sample is queued, the throttle is consulted (and records `now` when it
   * fires), and the section moves by the smoothed delta only if the throttle
   * fired or the raw step exceeds one pixel on an axis.
   */
  function MoveEffectOf(sections: seq<Section>, buffer: seq<Sample>, lastUpdate: real,
                        smooth: bool, index: int, dx: real, dy: real, now: real): (e: MoveEffect)
    requires |buffer| <= BufferSize
    ensures |e.sections| == |sections| && |e.buffer| <= BufferSize
    ensures forall j :: 0 <= j < |sections| && j != index ==> e.sections[j] == sections[j]
    ensures !(0 <= index < |sections|) ==> e == MoveEffect(sections, buffer, lastUpdate)
    ensures 0 <= index < |sections| && !smooth ==>
      e == MoveEffect(sections[index := Translated(sections[index], dx, dy)], buffer, lastUpdate)
    ensures 0 <= index < |sections| && smooth ==>
      && e.buffer == Pushed(buffer, Sample(dx, dy, now))
      && e.lastUpdate == (if UpdateDue(now, lastUpdate) then now else lastUpdate)
  {
    if !(0 <= index < |sections|) then MoveEffect(sections, buffer, lastUpdate)
    else if !smooth then MoveEffect(sections[index := Translated(sections[index], dx, dy)], buffer, lastUpdate)
    else
      var b := Pushed(buffer, Sample(dx, dy, now));
      var due := UpdateDue(now, lastUpdate);
      var last := if due then now else lastUpdate;
      if due || Abs(dx) > 1.0 || Abs(dy) > 1.0 then
        var d := Smoothed(b);
        MoveEffect(sections[index := Translated(sections[index], d.0, d.1)], b, last)
      else MoveEffect(sections, b, last)
  }

  /** The smoothing case of `MoveEffectOf`, spelt out field by field. */
  lemma SmoothEffect(sections: seq<Section>, buffer: seq<Sample>, lastUpdate: real,
                     index: nat, dx: real, dy: real, now: real)
    requires |buffer| <= BufferSize && index < |sections|
    ensures var e := MoveEffectOf(sections, buffer, lastUpdate, true, index, dx, dy, now);
      var b := Pushed(buffer, Sample(dx, dy, now));
      && e.buffer == b
      && e.lastUpdate == (if UpdateDue(now, lastUpdate) then now else lastUpdate)
      && e.sections == (if UpdateDue(now, lastUpdate) || Abs(dx) > 1.0 || Abs(dy) > 1.0
                        then sections[index := Translated(sections[index], Smoothed(b).0, Smoothed(b).1)]
                        else sections)
  {
  }

  /** Without smoothing, moving by (dx, dy) and then by (-dx, -dy) restores every section. */
  lemma MoveThenMoveBack(sections: seq<Section>, buffer: seq<Sample>, lastUpdate: real,
                         index: int, dx: real, dy: real, now: real)
    requires |buffer| <= BufferSize
    ensures var e1 := MoveEffectOf(sections, buffer, lastUpdate, false, index, dx, dy, now);
      MoveEffectOf(e1.sections, e1.buffer, e1.lastUpdate, false, index, -dx, -dy, now).sections == sections
  {
    if 0 <= index < |sections| {
      TranslatedInverse(sections[index], dx, dy);
      var e1 := MoveEffectOf(sections, buffer, lastUpdate, false, index, dx, dy, now);
      assert e1.sections[index := Translated(e1.sections[index], -dx, -dy)] == sections;
    }
  }

  /**
   * With smoothing on, a step of at most one pixel per axis that arrives
   * before the throttle interval has passed moves nothing.
   */
  lemma SmallEarlyStepMovesNothing(sections: seq<Section>, buffer: seq<Sample>, lastUpdate: real,
                                   index: int, dx: real, dy: real, now: real)
    requires |buffer| <= BufferSize
    requires !UpdateDue(now, lastUpdate) && Abs(dx) <= 1.0 && Abs(dy) <= 1.0
    ensures MoveEffectOf(sections, buffer, lastUpdate, true, index, dx, dy, now).sections == sections
    ensures MoveEffectOf(sections, buffer, lastUpdate, true, index, dx, dy, now).lastUpdate == lastUpdate
  {
  }

  /**
   * A smoothed move never goes further on an axis than the largest buffered
   * step: the applied delta lies within the range of the queued deltas.
   */
  lemma SmoothedMoveWithinRange(sections: seq<Section>, buffer: seq<Sample>, lastUpdate: real,
                                index: int, dx: real, dy: real, now: real, lo: real, hi: real)
    requires |buffer| <= BufferSize && 0 <= index < |sections|
    requires forall i :: 0 <= i < |buffer| ==> lo <= buffer[i].dx <= hi && lo <= buffer[i].dy <= hi
    requires lo <= dx <= hi && lo <= dy <= hi
    requires UpdateDue(now, lastUpdate) || Abs(dx) > 1.0 || Abs(dy) > 1.0
    ensures var d := Smoothed(Pushed(buffer, Sample(dx, dy, now)));
      && lo <= d.0 <= hi && lo <= d.1 <= hi
      && MoveEffectOf(sections, buffer, lastUpdate, true, index, dx, dy, now).sections
           == sections[index := Translated(sections[index], d.0, d.1)]
  {
    var b := Pushed(buffer, Sample(dx, dy, now));
    forall i | 0 <= i < |b| ensures lo <= b[i].dx <= hi && lo <= b[i].dy <= hi {
      var full := buffer + [Sample(dx, dy, now)];
      assert b[i] == full[|buffer| + 1 - |b| + i];
    }
    SmoothedWithinRange(b, lo, hi);
  }

  /** Every kind of move keeps the moved section well formed and anchored to its original shape. */
  lemma MoveKeepsAnchoring(sections: seq<Section>, buffer: seq<Sample>, lastUpdate: real,
                           smooth: bool, index: int, dx: real, dy: real, now: real, f: real)
    requires |buffer| <= BufferSize && 0 <= index < |sections|
    requires WellFormed(sections[index]) && AnchoredAt(sections[index], f)
    ensures var e := MoveEffectOf(sections, buffer, lastUpdate, smooth, index, dx, dy, now);
      WellFormed(e.sections[index]) && AnchoredAt(e.sections[index], f)
  {
    var s := sections[index];
    TranslatedKeepsShape(s, dx, dy, f);
    var d := Smoothed(Pushed(buffer, Sample(dx, dy, now)));
    TranslatedKeepsShape(s, d.0, d.1, f);
  }
}
