/**
 * The section record and the pure geometry of the edits made to it:
 * translation, the aspect-locked corner resize, duplication and the corner
 * handles used to start a resize.
 */
module Sections {
  import opened Wrappers
  import opened Geometry
  import opened HitTest

  /** The smallest candidate width or height a resize accepts. */
  const MinSize: int := 20
  /** Side of the square around each corner that grabs a resize handle, in canvas pixels. */
  const HandleSize: int := 8
  /** The offset in pixels at which a duplicate is placed. */
  const DuplicateOffset: real := 20.0

  datatype Size = Size(width: int, height: int)

  /** A raster, abstracted to its dimensions. */
  datatype Bitmap = Bitmap(width: int, height: int)

  /** A PIL bounding box (left, upper, right, lower); right and lower are exclusive. */
  datatype Box = Box(left: int, top: int, right: int, bottom: int)
  {
    predicate NonEmpty() { left < right && top < bottom }
    function Width(): int { right - left }
    function Height(): int { bottom - top }
  }

  datatype Corner = TL | TR | BL | BR

  /** The order in which handles are tried: tl, tr, bl, br. */
  function CornerRank(c: Corner): nat
  {
    match c
    case TL => 0
    case TR => 1
    case BL => 2
    case BR => 3
  }

  /**
   * One entry of `clipped_sections`. The `original*` fields are the snapshot
   * taken at creation, against which every resize is computed.
   */
  datatype Section = Section(
    image: Bitmap,
    position: Point,
    size: Size,
    boundary: seq<Point>,
    color: string,
    id: int,
    originalImage: Bitmap,
    originalBoundary: seq<Point>,
    originalBbox: Box,
    originalSize: Size)

  /** What creation establishes and every edit keeps. */
  predicate WellFormed(s: Section)
  {
    && |s.originalBoundary| >= 3
    && |s.boundary| == |s.originalBoundary|
    && s.originalBbox.NonEmpty()
    && s.originalSize == Size(s.originalBbox.Width(), s.originalBbox.Height())
  }

  /** The original boundary placed with its bounding-box corner at `pos` and scaled by f. */
  function Placed(ob: seq<Point>, bbox: Box, pos: Point, f: real): (r: seq<Point>)
    ensures |r| == |ob|
  {
    seq(|ob|, k requires 0 <= k < |ob| =>
      Point(pos.x + (ob[k].x - bbox.left as real) * f, pos.y + (ob[k].y - bbox.top as real) * f))
  }

  /**
   * The boundary is the original selection, scaled by f about the original
   * bounding-box corner and carried along to the current position: hit-test
   * geometry and the drawn bitmap agree.
   */
  ghost predicate AnchoredAt(s: Section, f: real)
  {
    s.boundary == Placed(s.originalBoundary, s.originalBbox, s.position, f)
  }

  /** The record that `create_clipped_section` appends. */
  function NewSection(path: seq<Point>, color: string, id: int, bbox: Box): (s: Section)
    requires |path| >= 3 && bbox.NonEmpty()
    ensures WellFormed(s)
    ensures AnchoredAt(s, 1.0)
    ensures s.size.width > 0 && s.size.height > 0
  {
    var size := Size(bbox.Width(), bbox.Height());
    var s := Section(
      Bitmap(size.width, size.height), Point(bbox.left as real, bbox.top as real), size, path, color, id,
      Bitmap(size.width, size.height), path, bbox, size);
    assert forall k :: 0 <= k < |path| ==> Placed(path, bbox, s.position, 1.0)[k] == path[k];
    s
  }

  // ---------------------------------------------------------------- move

  /** A move: position and every boundary vertex shifted by the same (dx, dy). */
  function Translated(s: Section, dx: real, dy: real): (r: Section)
    ensures WellFormed(s) ==> WellFormed(r)
  {
    s.(position := Shift(s.position, dx, dy), boundary := ShiftAll(s.boundary, dx, dy))
  }

  /** Moving by (dx, dy) and then by (-dx, -dy) restores position and boundary exactly. */
  lemma TranslatedInverse(s: Section, dx: real, dy: real)
    ensures Translated(Translated(s, dx, dy), -dx, -dy) == s
  {
    ShiftAllInverse(s.boundary, dx, dy);
  }

  /** A move keeps the boundary's length and its anchoring to the position. */
  lemma TranslatedKeepsShape(s: Section, dx: real, dy: real, f: real)
    requires WellFormed(s) && AnchoredAt(s, f)
    ensures WellFormed(Translated(s, dx, dy))
    ensures AnchoredAt(Translated(s, dx, dy), f)
  {
    var t := Translated(s, dx, dy);
    var p := Placed(t.originalBoundary, t.originalBbox, t.position, f);
    forall k | 0 <= k < |t.boundary|
      ensures t.boundary[k] == p[k]
    {
      assert t.boundary[k] == Shift(s.boundary[k], dx, dy);
    }
  }

  /** After a move by (dx, dy), (x + dx, y + dy) hits the section exactly when (x, y) hit it before. */
  lemma HitTestFollowsMove(s: Section, x: real, y: real, dx: real, dy: real)
    ensures Inside(Translated(s, dx, dy).boundary, x + dx, y + dy) <==> Inside(s.boundary, x, y)
  {
    InsideShift(s.boundary, x, y, dx, dy);
  }

  // ---------------------------------------------------------------- duplicate

  /** `duplicate_section`: a shallow copy, moved by 20 pixels, with a new id. */
  function Duplicated(s: Section, newId: int): Section
  {
    s.(position := Shift(s.position, DuplicateOffset, DuplicateOffset), id := newId)
  }

  /**
   * The duplicate's boundary is copied unchanged while its position moves, so
   * the duplicate is no longer anchored: its hit-test polygon stays over the
   * section it was copied from.
   */
  lemma DuplicateLeavesBoundaryBehind(s: Section, newId: int, f: real)
    requires WellFormed(s) && AnchoredAt(s, f)
    ensures Duplicated(s, newId).boundary == s.boundary
    ensures !AnchoredAt(Duplicated(s, newId), f)
  {
    var d := Duplicated(s, newId);
    var p := Placed(d.originalBoundary, d.originalBbox, d.position, f);
    assert p[0].x == s.boundary[0].x + DuplicateOffset;
  }

  // ---------------------------------------------------------------- resize

  /** The box a corner drag asks for, before the aspect lock. */
  datatype Candidate = Candidate(x: real, y: real, width: real, height: real)

  /** The two edges next to the dragged corner move by (dx, dy); the other two stay put. */
  function DragCandidate(s: Section, corner: Corner, dx: real, dy: real): (c: Candidate)
    ensures corner in {TL, BL} ==>
      c.x == s.position.x + dx && c.x + c.width == s.position.x + s.size.width as real
    ensures corner in {TR, BR} ==> c.x == s.position.x && c.width == s.size.width as real + dx
    ensures corner in {TL, TR} ==>
      c.y == s.position.y + dy && c.y + c.height == s.position.y + s.size.height as real
    ensures corner in {BL, BR} ==> c.y == s.position.y && c.height == s.size.height as real + dy
  {
    var x, y := s.position.x, s.position.y;
    var w, h := s.size.width as real, s.size.height as real;
    match corner
    case TL => Candidate(x + dx, y + dy, w - dx, h - dy)
    case TR => Candidate(x, y + dy, w + dx, h - dy)
    case BL => Candidate(x + dx, y, w - dx, h + dy)
    case BR => Candidate(x, y, w + dx, h + dy)
  }

  /** The uniform scale of the aspect lock: the smaller of the two axis ratios. */
  function LockScale(c: Candidate, o: Size): (f: real)
    requires o.width > 0 && o.height > 0
    ensures f * o.width as real <= c.width && f * o.height as real <= c.height
    ensures f * o.width as real == c.width || f * o.height as real == c.height
  {
    var fx := c.width / o.width as real;
    var fy := c.height / o.height as real;
    assert fx * o.width as real == c.width;
    assert fy * o.height as real == c.height;
    if fx <= fy then
      assert fx * o.height as real <= fy * o.height as real;
      fx
    else
      assert fy * o.width as real <= fx * o.width as real;
      fy
  }

  /**
   * The aspect-locked size: the original size times the lock scale, each side
   * truncated by `int()`. Neither side exceeds the candidate, and both sides
   * come from one common scale of the original size.
   */
  function LockedSize(c: Candidate, o: Size): (z: Size)
    requires o.width > 0 && o.height > 0
    requires c.width >= MinSize as real && c.height >= MinSize as real
    ensures var f := LockScale(c, o);
      && f > 0.0
      && z.width as real <= f * o.width as real < z.width as real + 1.0
      && z.height as real <= f * o.height as real < z.height as real + 1.0
    ensures 0 <= z.width && z.width as real <= c.width
    ensures 0 <= z.height && z.height as real <= c.height
  {
    var f := LockScale(c, o);
    assert f > 0.0 by {
      assert f * o.width as real == c.width || f * o.height as real == c.height;
    }
    Size(Trunc(f * o.width as real), Trunc(f * o.height as real))
  }

  /** The scale the boundary is rebuilt with: recomputed from the truncated final size. */
  function BoundaryScale(finalSize: Size, bbox: Box): real
    requires bbox.NonEmpty()
  {
    Min(finalSize.width as real / bbox.Width() as real, finalSize.height as real / bbox.Height() as real)
  }

  /**
   * What `resize_clipped_section` does to one section. `Raised` is the case
   * where the aspect-locked size has a zero side: position and size were
   * already written when the resampler raises, image and boundary were not.
   */
  datatype ResizeOutcome = Rejected | Applied(section: Section) | Raised(section: Section)

  function Resized(s: Section, corner: Corner, dx: real, dy: real): (r: ResizeOutcome)
    requires WellFormed(s)
    ensures var c := DragCandidate(s, corner, dx, dy);
      r.Rejected? <==> c.width < MinSize as real || c.height < MinSize as real
    ensures !r.Rejected? ==>
      var c := DragCandidate(s, corner, dx, dy);
      && r.section.position == Point(c.x, c.y)
      && r.section.size == LockedSize(c, s.originalSize)
      && WellFormed(r.section)
      && r.section == s.(position := r.section.position, size := r.section.size,
                         image := r.section.image, boundary := r.section.boundary)
    ensures r.Raised? <==> !r.Rejected? && (r.section.size.width == 0 || r.section.size.height == 0)
    ensures r.Raised? ==> r.section.image == s.image && r.section.boundary == s.boundary
    ensures r.Applied? ==>
      && r.section.image == Bitmap(r.section.size.width, r.section.size.height)
      && AnchoredAt(r.section, BoundaryScale(r.section.size, s.originalBbox))
  {
    var c := DragCandidate(s, corner, dx, dy);
    if c.width < MinSize as real || c.height < MinSize as real then Rejected
    else
      var z := LockedSize(c, s.originalSize);
      var moved := s.(position := Point(c.x, c.y), size := z);
      if z.width < 1 || z.height < 1 then Raised(moved)
      else
        var g := BoundaryScale(z, s.originalBbox);
        Applied(moved.(image := Bitmap(z.width, z.height),
                       boundary := Placed(s.originalBoundary, s.originalBbox, moved.position, g)))
  }

  /**
   * The resize as evidently intended: a drag whose aspect-locked result would
   * have a side under the minimum is rejected like a too-small candidate, so
   * every accepted resize keeps both sides at 20 pixels or more and the
   * resampler never sees a zero side.
   */
  function ResizedCorrected(s: Section, corner: Corner, dx: real, dy: real): (r: ResizeOutcome)
    requires WellFormed(s)
    ensures !r.Raised?
    ensures var c := DragCandidate(s, corner, dx, dy);
      r.Rejected? <==>
        || c.width < MinSize as real || c.height < MinSize as real
        || LockedSize(c, s.originalSize).width < MinSize || LockedSize(c, s.originalSize).height < MinSize
    ensures r.Applied? ==>
      && r == Resized(s, corner, dx, dy)
      && r.section.size.width >= MinSize && r.section.size.height >= MinSize
      && r.section.image == Bitmap(r.section.size.width, r.section.size.height)
      && WellFormed(r.section)
  {
    var c := DragCandidate(s, corner, dx, dy);
    if c.width < MinSize as real || c.height < MinSize as real then Rejected
    else
      var z := LockedSize(c, s.originalSize);
      if z.width < MinSize || z.height < MinSize then Rejected
      else Resized(s, corner, dx, dy)
  }

  /** A section `width` pixels wide and 100 high at the origin, cut out along a small triangle. */
  function Strip(width: int): (s: Section)
    requires width > 0
    ensures WellFormed(s) && s.originalSize == Size(width, 100) && s.size == s.originalSize
  {
    var outline := [Point(0.0, 0.0), Point(1.0, 0.0), Point(0.0, 1.0)];
    Section(Bitmap(width, 100), Point(0.0, 0.0), Size(width, 100), outline, "#FF0000", 0,
            Bitmap(width, 100), outline, Box(0, 0, width, 100), Size(width, 100))
  }

  /** The aspect lock of a 20 x 20 candidate over an original 10 or 1 pixel wide and 100 high. */
  lemma ThinLocks()
    ensures LockedSize(Candidate(0.0, 0.0, 20.0, 20.0), Size(10, 100)) == Size(2, 20)
    ensures LockedSize(Candidate(0.0, 0.0, 20.0, 20.0), Size(1, 100)) == Size(0, 20)
  {
    var c := Candidate(0.0, 0.0, 20.0, 20.0);
    assert LockScale(c, Size(10, 100)) == 0.2 by {
      assert 20.0 / 10.0 == 2.0 && 20.0 / 100.0 == 0.2;
    }
    assert LockScale(c, Size(1, 100)) == 0.2 by {
      assert 20.0 / 1.0 == 20.0 && 20.0 / 100.0 == 0.2;
    }
    assert 0.2 * 10 as real == 2.0 && 0.2 * 100 as real == 20.0 && 0.2 * 1 as real == 0.2;
    TruncOfInteger(2);
    TruncOfInteger(20);
    assert Trunc(0.2) == 0;
  }

  /**
   * As written, the minimum is checked on the candidate only: dragging the
   * bottom-right corner of a 10 x 100 section to a 20 x 20 candidate passes
   * the check, and the aspect lock then makes it 2 x 20.
   */
  lemma ResizeShrinksBelowMinimum()
    ensures var r := Resized(Strip(10), BR, 10.0, -80.0);
      r.Applied? && r.section.size == Size(2, 20) && r.section.size.width < MinSize
  {
    ThinLocks();
    assert DragCandidate(Strip(10), BR, 10.0, -80.0) == Candidate(0.0, 0.0, 20.0, 20.0);
  }

  /**
   * As written, a 1 x 100 section dragged to a 20 x 20 candidate locks to
   * 0 x 20: position and size are written and then the resampler rejects
   * the zero width.
   */
  lemma ResizeReachesZeroWidth()
    ensures var r := Resized(Strip(1), BR, 19.0, -80.0);
      r.Raised? && r.section.size == Size(0, 20)
  {
    ThinLocks();
    assert DragCandidate(Strip(1), BR, 19.0, -80.0) == Candidate(0.0, 0.0, 20.0, 20.0);
  }

  /** The corrected resize rejects both drags above. */
  lemma CorrectedResizeRejectsThinResults()
    ensures ResizedCorrected(Strip(10), BR, 10.0, -80.0).Rejected?
    ensures ResizedCorrected(Strip(1), BR, 19.0, -80.0).Rejected?
  {
    ResizeShrinksBelowMinimum();
    ResizeReachesZeroWidth();
  }

  // ---------------------------------------------------------------- handles

  /** A corner of the section in canvas pixels: each quantity truncated after scaling. */
  function HandleAt(s: Section, scale: real, corner: Corner): (int, int)
  {
    var sx := Trunc(s.position.x * scale);
    var sy := Trunc(s.position.y * scale);
    var sw := Trunc(s.size.width as real * scale);
    var sh := Trunc(s.size.height as real * scale);
    match corner
    case TL => (sx, sy)
    case TR => (sx + sw, sy)
    case BL => (sx, sy + sh)
    case BR => (sx + sw, sy + sh)
  }

  /** The point lies in the closed square of side 8 around the handle. */
  predicate HandleHit(s: Section, scale: real, corner: Corner, cx: int, cy: int)
  {
    var h := HandleAt(s, scale, corner);
    h.0 - HandleSize / 2 <= cx <= h.0 + HandleSize / 2 && h.1 - HandleSize / 2 <= cy <= h.1 + HandleSize / 2
  }

  /** The first corner of one section, in the order tl, tr, bl, br, whose handle is hit. */
  function FirstCornerHit(s: Section, scale: real, cx: int, cy: int): (r: Option<Corner>)
    ensures r.Some? ==> HandleHit(s, scale, r.value, cx, cy)
    ensures r.Some? ==> forall c :: CornerRank(c) < CornerRank(r.value) ==> !HandleHit(s, scale, c, cx, cy)
    ensures r.None? ==> forall c :: !HandleHit(s, scale, c, cx, cy)
  {
    if HandleHit(s, scale, TL, cx, cy) then Some(TL)
    else if HandleHit(s, scale, TR, cx, cy) then Some(TR)
    else if HandleHit(s, scale, BL, cx, cy) then Some(BL)
    else if HandleHit(s, scale, BR, cx, cy) then Some(BR)
    else None
  }

  /**
   * `find_resize_handle_at_point`: sections in list order, corners in the
   * order tl, tr, bl, br; the first handle hit wins.
   */
  function FindResizeHandle(sections: seq<Section>, scale: real, cx: int, cy: int): (r: Option<(nat, Corner)>)
    ensures r.Some? ==>
      && r.value.0 < |sections|
      && HandleHit(sections[r.value.0], scale, r.value.1, cx, cy)
      && (forall c :: CornerRank(c) < CornerRank(r.value.1) ==> !HandleHit(sections[r.value.0], scale, c, cx, cy))
      && (forall j, c :: 0 <= j < r.value.0 ==> !HandleHit(sections[j], scale, c, cx, cy))
    ensures r.None? ==> forall j, c :: 0 <= j < |sections| ==> !HandleHit(sections[j], scale, c, cx, cy)
  {
    if sections == [] then None
    else
      match FirstCornerHit(sections[0], scale, cx, cy)
      case Some(c) => Some((0, c))
      case None =>
        var rest := FindResizeHandle(sections[1..], scale, cx, cy);
        if rest.None? then None else Some((rest.value.0 + 1, rest.value.1))
  }
}
