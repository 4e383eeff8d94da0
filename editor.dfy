/**
 * The editor object: the section list and the working image it punches
 * holes into, the capture state of the mouse handlers, the display cache and
 * resolution pyramid, the movement smoother and the unit settings, all
 * updated in place by the editor's methods.
 */
module Editor {
  import opened Wrappers
  import opened Geometry
  import opened Units
  import opened HitTest
  import opened Sections
  import opened Pyramid
  import opened DisplayLru
  import opened Smoothing
  import opened EditorRules

  class ImageEditor {
    /** Size of the loaded image in pixels. */
    const originalWidth: nat
    const originalHeight: nat

    var imageScale: real
    var imageDpi: int
    var gridSizeCm: real
    var snapToGrid: bool
    var preciseMode: bool
    var smoothMovement: bool
    var mode: Mode

    // selection capture
    var drawing: bool
    var selectionPath: seq<Point>
    var selectedColor: string

    // the section store and the holes punched into the working image
    var clippedSections: seq<Section>
    var holes: Holes

    // display cache (an insertion-ordered map: `displayOrder` is its key order) and pyramid
    var displayOrder: seq<ViewportKey>
    var displayCache: map<ViewportKey, DisplayEntry>
    var cacheHitCount: nat
    var cacheMissCount: nat
    var imagePyramid: map<real, Level>

    // movement smoother and throttle
    var movementBuffer: seq<Sample>
    var lastUpdateTime: real

    // drag state of move mode
    var selectedSection: Option<nat>
    var dragStart: Option<Point>
    var resizeMode: bool
    var resizeCorner: Option<Corner>
    var lastMousePos: Option<Point>

    /** What every method keeps: the conjunction of the invariants below. */
    ghost predicate Valid()
      reads this
    {
      SettingsValid() && CacheValid() && BufferValid() && DragValid() && SectionsValid()
    }

    /** The DPI and the zoom stay positive. */
    ghost predicate SettingsValid()
      reads this`imageDpi, this`imageScale
    {
      imageDpi > 0 && imageScale > 0.0
    }

    /** The display cache's keys are exactly its order's, without repetition, and at most eight. */
    ghost predicate CacheValid()
      reads this`displayOrder, this`displayCache
    {
      Distinct(displayOrder) && |displayOrder| <= CacheMaxSize && displayCache.Keys == Elements(displayOrder)
    }

    ghost predicate BufferValid()
      reads this`movementBuffer
    {
      |movementBuffer| <= BufferSize
    }

    /** A resize in progress knows which corner is dragged. */
    ghost predicate DragValid()
      reads this`resizeMode, this`resizeCorner
    {
      resizeMode ==> resizeCorner.Some?
    }

    ghost predicate SectionsValid()
      reads this`clippedSections
    {
      forall i :: 0 <= i < |clippedSections| ==> WellFormed(clippedSections[i])
    }

    /** Every cached bitmap and every pyramid level shows the current working image. */
    ghost predicate Coherent()
      reads this
    {
      && (forall k :: k in displayCache ==> displayCache[k].content == holes)
      && (forall l :: l in imagePyramid ==> imagePyramid[l].content == holes)
    }

    /** The state `rebuild_working_image` leaves: one hole per current boundary, both caches empty. */
    ghost predicate Rebuilt()
      reads this
    {
      holes == HolesOf(clippedSections) && displayCache == map[] && displayOrder == [] && imagePyramid == map[]
    }

    constructor (width: nat, height: nat)
      ensures Valid() && Coherent()
      ensures originalWidth == width && originalHeight == height
      ensures imageScale == 1.0 && imageDpi == DefaultDpi && gridSizeCm == DefaultGridSizeCm
      ensures !snapToGrid && !preciseMode && smoothMovement && mode == NoMode
      ensures !drawing && selectionPath == [] && selectedColor == "#FF0000"
      ensures clippedSections == [] && holes == []
      ensures displayOrder == [] && displayCache == map[] && imagePyramid == map[]
      ensures cacheHitCount == 0 && cacheMissCount == 0
      ensures movementBuffer == [] && lastUpdateTime == 0.0
      ensures selectedSection.None? && dragStart.None? && !resizeMode && resizeCorner.None? && lastMousePos.None?
    {
      originalWidth, originalHeight := width, height;
      imageScale, imageDpi, gridSizeCm := 1.0, DefaultDpi, DefaultGridSizeCm;
      snapToGrid, preciseMode, smoothMovement, mode := false, false, true, NoMode;
      drawing, selectionPath, selectedColor := false, [], "#FF0000";
      clippedSections, holes := [], [];
      displayOrder, displayCache, imagePyramid := [], map[], map[];
      cacheHitCount, cacheMissCount := 0, 0;
      movementBuffer, lastUpdateTime := [], 0.0;
      selectedSection, dragStart, resizeMode, resizeCorner, lastMousePos := None, None, false, None, None;
    }

    // ================================================================ display caches

    /** A pyramid level as `_create_pyramid_level` builds it from the current working image. */
    function BuiltLevel(level: real): Level
      reads this
    {
      Level(LevelDimension(originalWidth, level), LevelDimension(originalHeight, level), holes)
    }

    /** `_get_pyramid_level`: builds a level on first use, then returns the memoised one. */
    method GetPyramidLevel(level: real) returns (l: Level)
      modifies this`imagePyramid
      ensures level in old(imagePyramid) ==> imagePyramid == old(imagePyramid) && l == old(imagePyramid)[level]
      ensures level !in old(imagePyramid) ==> l == BuiltLevel(level) && imagePyramid == old(imagePyramid)[level := l]
      ensures level in imagePyramid && l == imagePyramid[level]
      ensures old(Coherent()) ==> Coherent() && l.content == holes
    {
      if level !in imagePyramid {
        imagePyramid := imagePyramid[level := BuiltLevel(level)];
      }
      l := imagePyramid[level];
    }

    /**
     * `_cache_display_result`: when the cache is full its oldest entry is
     * deleted, then the key is bound to the new entry.
     */
    method CacheDisplayResult(key: ViewportKey, entry: DisplayEntry)
      requires Valid()
      modifies this`displayCache, this`displayOrder
      ensures Valid()
      ensures displayOrder == Insert(old(displayOrder), key)
      ensures displayCache == StoreEntry(old(displayCache), old(displayOrder), key, entry)
      ensures old(Coherent()) && entry.content == holes ==> Coherent()
    {
      EvictThenAssign(displayCache, displayOrder, key, entry);
      if Coherent() && entry.content == holes {
        StoreKeepsContent(displayCache, displayOrder, key, entry, holes);
      }
      var cache, order := displayCache, displayOrder;
      if |cache| >= CacheMaxSize {
        var oldest := order[0];
        cache := cache - {oldest};
        order := order[1..];
      }
      cache := cache[key := entry];
      if key !in order {
        order := order + [key];
      }
      displayCache, displayOrder := cache, order;
    }

    /** Storing an entry showing the current holes keeps every cached entry showing them. */
    static lemma StoreKeepsContent(cache: map<ViewportKey, DisplayEntry>, order: seq<ViewportKey>,
                                   key: ViewportKey, entry: DisplayEntry, content: Holes)
      requires Distinct(order) && cache.Keys == Elements(order) && |order| <= CacheMaxSize
      requires forall k :: k in cache ==> cache[k].content == content
      requires entry.content == content
      ensures var r := StoreEntry(cache, order, key, entry);
        forall k :: k in r ==> r[k].content == content
    {
    }

    /**
     * The cache path of `_display_image_optimized`. A hit moves the viewport
     * to the most-recent end and shows the cached bitmap. A miss picks the
     * pyramid level for the zoom, fetches or builds it, sizes the display
     * (each side clamped to [1, 32000]) and caches the result.
     */
    method DisplayImage(scrollX: real, scrollY: real, visibleWidth: int, visibleHeight: int)
      returns (shown: DisplayEntry)
      requires Valid()
      modifies this`displayCache, this`displayOrder, this`cacheHitCount, this`cacheMissCount, this`imagePyramid
      ensures Valid()
      ensures var key := KeyFor(imageScale, scrollX, scrollY, visibleWidth, visibleHeight);
        key in old(displayCache) ==> CacheHit(key, shown)
      ensures var key := KeyFor(imageScale, scrollX, scrollY, visibleWidth, visibleHeight);
        key !in old(displayCache) ==> CacheMiss(key, shown)
      ensures old(Coherent()) ==> Coherent() && shown.content == holes
    {
      var key := KeyFor(imageScale, scrollX, scrollY, visibleWidth, visibleHeight);
      if key in displayCache {
        shown := DisplayHit(key);
      } else {
        shown := DisplayMiss(key);
      }
    }

    /** The hit path of `_display_image_optimized`. */
    method DisplayHit(key: ViewportKey) returns (shown: DisplayEntry)
      requires Valid() && key in displayCache
      modifies this`displayOrder, this`cacheHitCount
      ensures Valid()
      ensures CacheHit(key, shown)
      ensures old(Coherent()) ==> Coherent() && shown.content == holes
    {
      shown := displayCache[key];
      displayOrder := Touch(displayOrder, key);
      cacheHitCount := cacheHitCount + 1;
    }

    /** A cache hit: the cached bitmap is shown and its key becomes the most recent. */
    twostate predicate CacheHit(key: ViewportKey, shown: DisplayEntry)
      requires old(CacheValid()) && key in old(displayCache)
      reads this
    {
      && shown == old(displayCache)[key]
      && displayCache == old(displayCache)
      && displayOrder == Touch(old(displayOrder), key)
      && cacheHitCount == old(cacheHitCount) + 1 && cacheMissCount == old(cacheMissCount)
      && imagePyramid == old(imagePyramid)
    }

    /**
     * A cache miss: the display is sized from the original and the zoom, its
     * content comes from the pyramid level for the zoom (built if absent),
     * and the result is cached.
     */
    twostate predicate CacheMiss(key: ViewportKey, shown: DisplayEntry)
      requires old(CacheValid())
      reads this
    {
      var level := OptimalPyramidLevel(old(imageScale));
      && shown.width == DisplayDimension(originalWidth, old(imageScale))
      && shown.height == DisplayDimension(originalHeight, old(imageScale))
      && level in imagePyramid && shown.content == imagePyramid[level].content
      && imagePyramid == (if level in old(imagePyramid) then old(imagePyramid)
                          else old(imagePyramid)[level := old(BuiltLevel(level))])
      && displayOrder == Insert(old(displayOrder), key)
      && displayCache == StoreEntry(old(displayCache), old(displayOrder), key, shown)
      && cacheMissCount == old(cacheMissCount) + 1 && cacheHitCount == old(cacheHitCount)
    }

    /** The miss path of `_display_image_optimized`. */
    method DisplayMiss(key: ViewportKey) returns (shown: DisplayEntry)
      requires Valid()
      modifies this`displayCache, this`displayOrder, this`cacheMissCount, this`imagePyramid
      ensures Valid()
      ensures CacheMiss(key, shown)
      ensures old(Coherent()) ==> Coherent() && shown.content == holes
    {
      cacheMissCount := cacheMissCount + 1;
      var level := OptimalPyramidLevel(imageScale);
      var pyramidImage := GetPyramidLevel(level);
      var width := DisplayDimension(originalWidth, imageScale);
      var height := DisplayDimension(originalHeight, imageScale);
      shown := DisplayEntry(width, height, pyramidImage.content);
      CacheDisplayResult(key, shown);
    }

    // ================================================================ section store

    /**
     * `create_clipped_section`: a path of fewer than three points, or one
     * whose mask is empty (no bounding box), changes nothing. Otherwise one
     * section is appended, the path is punched into the working image, and
     * both caches are emptied.
     */
    method CreateClippedSection(path: seq<Point>, color: string, bbox: Option<Box>)
      requires Valid()
      requires bbox.Some? ==> bbox.value.NonEmpty()
      modifies this`clippedSections, this`holes, this`displayCache, this`displayOrder, this`imagePyramid
      ensures Valid()
      ensures |path| < 3 || bbox.None? ==> unchanged(this)
      ensures |path| >= 3 && bbox.Some? ==>
        && clippedSections == old(clippedSections) + [NewSection(path, color, |old(clippedSections)|, bbox.value)]
        && holes == old(holes) + [TruncPath(path)]
        && displayCache == map[] && displayOrder == [] && imagePyramid == map[]
        && Coherent()
      ensures old(Coherent()) ==> Coherent()
    {
      if |path| < 3 {
        return;
      }
      if bbox.None? {
        return;
      }
      clippedSections := clippedSections + [NewSection(path, color, |clippedSections|, bbox.value)];
      holes := holes + [TruncPath(path)];
      displayCache, displayOrder := map[], [];
      imagePyramid := map[];
    }

    /** `rebuild_working_image`: re-punches a hole for every current boundary and empties both caches. */
    method RebuildWorkingImage()
      requires Valid()
      modifies this`holes, this`displayCache, this`displayOrder, this`imagePyramid
      ensures Valid() && Rebuilt() && Coherent()
    {
      holes := HolesOf(clippedSections);
      displayCache, displayOrder := map[], [];
      imagePyramid := map[];
    }

    /** `undo_last_selection`: removes the newest section, if any, and rebuilds. */
    method UndoLastSelection()
      requires Valid()
      modifies this`clippedSections, this`holes, this`displayCache, this`displayOrder, this`imagePyramid
      ensures Valid()
      ensures old(clippedSections) == [] ==> unchanged(this)
      ensures old(clippedSections) != [] ==>
        clippedSections == old(clippedSections)[..|old(clippedSections)| - 1] && Rebuilt() && Coherent()
      ensures old(Coherent()) ==> Coherent()
    {
      if clippedSections != [] {
        clippedSections := clippedSections[..|clippedSections| - 1];
        RebuildWorkingImage();
      }
    }

    /** `delete_selected_section`: removes the selected list entry when it names a section, and rebuilds. */
    method DeleteSelectedSection(selection: Option<nat>)
      requires Valid()
      modifies this`clippedSections, this`holes, this`displayCache, this`displayOrder, this`imagePyramid
      ensures Valid()
      ensures selection.Some? && selection.value < |old(clippedSections)| ==>
        clippedSections == RemovedAt(old(clippedSections), selection.value) && Rebuilt() && Coherent()
      ensures !(selection.Some? && selection.value < |old(clippedSections)|) ==> unchanged(this)
      ensures old(Coherent()) ==> Coherent()
    {
      if selection.Some? && selection.value < |clippedSections| {
        clippedSections := RemovedAt(clippedSections, selection.value);
        RebuildWorkingImage();
      }
    }

    /**
     * `clear_selections` as written: the list is emptied and the working
     * image reset to the original, but the display cache and the pyramid are
     * kept, so they still hold bitmaps with the old holes.
     */
    method ClearSelections()
      requires Valid()
      modifies this`clippedSections, this`holes
      ensures Valid()
      ensures clippedSections == [] && holes == []
      ensures displayCache == old(displayCache) && displayOrder == old(displayOrder)
      ensures imagePyramid == old(imagePyramid)
    {
      clippedSections := [];
      holes := [];
    }

    /** `clear_selections` as evidently intended: also empties both caches, as rebuilding does. */
    method ClearSelectionsCorrected()
      requires Valid()
      modifies this`clippedSections, this`holes, this`displayCache, this`displayOrder, this`imagePyramid
      ensures Valid() && Rebuilt() && Coherent()
      ensures clippedSections == [] && holes == []
    {
      clippedSections := [];
      RebuildWorkingImage();
    }

    /** `duplicate_section`: appends a copy of the selected section, moved by 20 pixels, with the next id. */
    method DuplicateSection(selection: Option<nat>)
      requires Valid()
      modifies this`clippedSections
      ensures Valid()
      ensures selection.Some? && selection.value < |old(clippedSections)| ==>
        clippedSections == old(clippedSections)
          + [Duplicated(old(clippedSections)[selection.value], |old(clippedSections)|)]
      ensures !(selection.Some? && selection.value < |old(clippedSections)|) ==> unchanged(this)
    {
      if selection.Some? && selection.value < |clippedSections| {
        clippedSections := clippedSections + [Duplicated(clippedSections[selection.value], |clippedSections|)];
      }
    }

    // ================================================================ smoother and throttle

    /** `add_movement_to_buffer`: queue the step, keeping the newest three. */
    method AddMovementToBuffer(dx: real, dy: real, now: real)
      requires |movementBuffer| <= BufferSize
      modifies this`movementBuffer
      ensures movementBuffer == Pushed(old(movementBuffer), Sample(dx, dy, now))
    {
      movementBuffer := movementBuffer + [Sample(dx, dy, now)];
      if |movementBuffer| > BufferSize {
        movementBuffer := movementBuffer[1..];
      }
    }

    /** `should_update_display`: true, recording `now`, once 8 ms have passed since the last update. */
    method ShouldUpdateDisplay(now: real) returns (due: bool)
      modifies this`lastUpdateTime
      ensures due == UpdateDue(now, old(lastUpdateTime))
      ensures due ==> lastUpdateTime == now
      ensures !due ==> lastUpdateTime == old(lastUpdateTime)
    {
      if now - lastUpdateTime >= MinUpdateInterval {
        lastUpdateTime := now;
        return true;
      }
      return false;
    }

    /** `toggle_smooth_movement`: switching smoothing off empties the buffer. */
    method SetSmoothMovement(enabled: bool)
      requires Valid()
      modifies this`smoothMovement, this`movementBuffer
      ensures Valid()
      ensures smoothMovement == enabled
      ensures !enabled ==> movementBuffer == []
      ensures enabled ==> movementBuffer == old(movementBuffer)
    {
      smoothMovement := enabled;
      if !enabled {
        movementBuffer := [];
      }
    }

    // ================================================================ moves and resize

    /** `move_clipped_section`: a drag step, smoothed and throttled when smoothing is on. */
    method MoveClippedSection(index: int, dx: real, dy: real, now: real)
      requires Valid()
      modifies this`clippedSections, this`movementBuffer, this`lastUpdateTime
      ensures Valid()
      ensures var e := MoveEffectOf(old(clippedSections), old(movementBuffer), old(lastUpdateTime),
                                    smoothMovement, index, dx, dy, now);
        clippedSections == e.sections && movementBuffer == e.buffer && lastUpdateTime == e.lastUpdate
    {
      if !(0 <= index < |clippedSections|) {
        return;
      }
      ghost var e := MoveEffectOf(clippedSections, movementBuffer, lastUpdateTime, smoothMovement, index, dx, dy, now);
      if smoothMovement {
        MoveSmoothed(index, dx, dy, now);
      } else {
        MoveUnbuffered(index, dx, dy);
      }
      assert clippedSections == e.sections && movementBuffer == e.buffer && lastUpdateTime == e.lastUpdate;
    }

    /** The branch of `move_clipped_section` without smoothing: the section moves by exactly (dx, dy). */
    method MoveUnbuffered(index: nat, dx: real, dy: real)
      requires SectionsValid() && index < |clippedSections|
      modifies this`clippedSections
      ensures SectionsValid()
      ensures clippedSections == old(clippedSections)[index := Translated(old(clippedSections)[index], dx, dy)]
    {
      ghost var before := clippedSections;
      var moved := Translated(clippedSections[index], dx, dy);
      clippedSections := clippedSections[index := moved];
      ReplaceKeepsWellFormed(before, index, moved, clippedSections);
    }

    /** The smoothing branch of `move_clipped_section`. */
    method MoveSmoothed(index: nat, dx: real, dy: real, now: real)
      requires BufferValid() && SectionsValid() && index < |clippedSections|
      modifies this`clippedSections, this`movementBuffer, this`lastUpdateTime
      ensures BufferValid() && SectionsValid()
      ensures var e := MoveEffectOf(old(clippedSections), old(movementBuffer), old(lastUpdateTime),
                                    true, index, dx, dy, now);
        clippedSections == e.sections && movementBuffer == e.buffer && lastUpdateTime == e.lastUpdate
    {
      SmoothEffect(clippedSections, movementBuffer, lastUpdateTime, index, dx, dy, now);
      var section := clippedSections[index];
      AddMovementToBuffer(dx, dy, now);
      var due := ShouldUpdateDisplay(now);
      if due || Abs(dx) > 1.0 || Abs(dy) > 1.0 {
        var smoothDx, smoothDy := GetSmoothedMovement(movementBuffer);
        var moved := Translated(section, smoothDx, smoothDy);
        ghost var before := clippedSections;
        clippedSections := clippedSections[index := moved];
        ReplaceKeepsWellFormed(before, index, moved, clippedSections);
      }
    }

    /** Replacing one well-formed section by another keeps the whole list well-formed. */
    static lemma ReplaceKeepsWellFormed(sections: seq<Section>, index: nat, s: Section, r: seq<Section>)
      requires index < |sections| && WellFormed(s) && r == sections[index := s]
      requires forall i :: 0 <= i < |sections| ==> WellFormed(sections[i])
      ensures forall i :: 0 <= i < |r| ==> WellFormed(r[i])
    {
    }

    /** The section list after `move_clipped_section_direct` under the current settings. */
    function DirectMoved(sections: seq<Section>, index: int, dx: real, dy: real): (r: seq<Section>)
      reads this`snapToGrid, this`preciseMode, this`gridSizeCm, this`imageDpi
      requires imageDpi > 0
      ensures |r| == |sections|
    {
      if !(0 <= index < |sections|) then sections
      else
        var s := sections[index];
        match DirectTarget(s.position, dx, dy, snapToGrid, preciseMode, CmToPixels(gridSizeCm, imageDpi))
        case None => sections
        case Some(p) => sections[index := Translated(s, p.x - s.position.x, p.y - s.position.y)]
    }

    /**
     * Whatever the target (snapped, rounded or exact), a direct move keeps the
     * moved section anchored to its original shape, so boundary and position
     * stay in step, and leaves every other section alone.
     */
    lemma DirectMoveKeepsAnchoring(sections: seq<Section>, index: int, dx: real, dy: real, f: real)
      requires imageDpi > 0 && 0 <= index < |sections|
      requires WellFormed(sections[index]) && AnchoredAt(sections[index], f)
      ensures var r := DirectMoved(sections, index, dx, dy);
        && WellFormed(r[index]) && AnchoredAt(r[index], f)
        && forall j :: 0 <= j < |sections| && j != index ==> r[j] == sections[j]
    {
      var s := sections[index];
      var t := DirectTarget(s.position, dx, dy, snapToGrid, preciseMode, CmToPixels(gridSizeCm, imageDpi));
      if t.Some? {
        TranslatedKeepsShape(s, t.value.x - s.position.x, t.value.y - s.position.y, f);
      }
    }

    /**
     * `move_clipped_section_direct`: the section goes to the snapped or
     * rounded target, and its boundary moves by the actual change of
     * position, so position and boundary stay in step.
     */
    method MoveClippedSectionDirect(index: int, dx: real, dy: real)
      requires Valid()
      modifies this`clippedSections
      ensures Valid()
      ensures clippedSections == DirectMoved(old(clippedSections), index, dx, dy)
      ensures 0 <= index < |clippedSections| ==>
        var t := DirectTarget(old(clippedSections)[index].position, dx, dy, snapToGrid, preciseMode,
                              CmToPixels(gridSizeCm, imageDpi));
        t.Some? ==> clippedSections[index].position == t.value
    {
      if !(0 <= index < |clippedSections|) {
        return;
      }
      var section := clippedSections[index];
      var from := section.position;
      var target := DirectTarget(from, dx, dy, snapToGrid, preciseMode, CmToPixels(gridSizeCm, imageDpi));
      if target.None? {
        return;
      }
      var actualDx, actualDy := target.value.x - from.x, target.value.y - from.y;
      clippedSections := clippedSections[index := Translated(section, actualDx, actualDy)];
    }

    /**
     * `move_selected_section`: a keyboard step of `stepCm` centimetres in a
     * direction, turned into pixels at the current DPI. No selection, a
     * selection past the end, or a step that does not parse (None) change nothing.
     */
    method MoveSelectedSection(directionX: int, directionY: int, selection: Option<nat>, stepCm: Option<real>)
      requires Valid()
      modifies this`clippedSections
      ensures Valid()
      ensures selection.None? || selection.value >= |old(clippedSections)| || stepCm.None? ==> unchanged(this)
      ensures selection.Some? && selection.value < |old(clippedSections)| && stepCm.Some? ==>
        clippedSections == DirectMoved(old(clippedSections), selection.value,
                                       KeyboardDelta(directionX, stepCm.value, imageDpi),
                                       KeyboardDelta(directionY, stepCm.value, imageDpi))
    {
      if selection.None? || selection.value >= |clippedSections| || stepCm.None? {
        return;
      }
      var dx := KeyboardDelta(directionX, stepCm.value, imageDpi);
      var dy := KeyboardDelta(directionY, stepCm.value, imageDpi);
      MoveClippedSectionDirect(selection.value, dx, dy);
    }

    /**
     * `resize_clipped_section`: applies `Resized` to the indexed section.
     * `raised` reports the case where the resampler rejects a zero side after
     * position and size were already written.
     */
    method ResizeClippedSection(index: int, corner: Corner, dx: real, dy: real) returns (raised: bool)
      requires Valid()
      modifies this`clippedSections
      ensures Valid()
      ensures !(0 <= index < |old(clippedSections)|) ==> unchanged(this) && !raised
      ensures 0 <= index < |old(clippedSections)| ==>
        var r := Resized(old(clippedSections)[index], corner, dx, dy);
        && (r.Rejected? ==> clippedSections == old(clippedSections))
        && (!r.Rejected? ==> clippedSections == old(clippedSections)[index := r.section])
        && raised == r.Raised?
    {
      raised := false;
      if !(0 <= index < |clippedSections|) {
        return;
      }
      var r := Resized(clippedSections[index], corner, dx, dy);
      if !r.Rejected? {
        clippedSections := clippedSections[index := r.section];
        raised := r.Raised?;
      }
    }

    // ================================================================ hit-testing

    /**
     * `find_clipped_section_at_point`: the selected list entry when its
     * boundary contains the point, otherwise the last section in the list
     * (the one drawn on top) whose boundary contains it.
     */
    method FindClippedSectionAtPoint(x: real, y: real, selection: Option<nat>) returns (r: Option<nat>)
      ensures r == SectionAt(clippedSections, x, y, selection)
    {
      if selection.Some? && selection.value < |clippedSections| {
        var inside := PointInPolygon(x, y, clippedSections[selection.value].boundary);
        if inside {
          return selection;
        }
      }
      var i := |clippedSections|;
      while i > 0
        invariant 0 <= i <= |clippedSections|
        invariant TopmostAt(clippedSections, x, y, |clippedSections|) == TopmostAt(clippedSections, x, y, i)
      {
        i := i - 1;
        var inside := PointInPolygon(x, y, clippedSections[i].boundary);
        if inside {
          return Some(i);
        }
      }
      return None;
    }

    // ================================================================ mouse handlers

    /**
     * `on_mouse_down`: records the pointer in image coordinates. In select
     * mode it starts a new path; in move mode a resize handle under the
     * pointer starts a resize, otherwise the section under the pointer (if
     * any) is selected for moving. Handles are looked up with the window
     * coordinates of the event, sections with the image coordinates.
     */
    method MouseDown(windowX: int, windowY: int, canvasX: real, canvasY: real, listboxSelection: Option<nat>)
      requires Valid()
      modifies this`lastMousePos, this`drawing, this`selectionPath, this`dragStart,
               this`selectedSection, this`resizeMode, this`resizeCorner
      ensures Valid()
      ensures var p := ImageCoordinates(canvasX, canvasY, imageScale, preciseMode);
        lastMousePos == Some(p)
      ensures mode == NoMode ==>
        unchanged(this`drawing, this`selectionPath, this`dragStart, this`selectedSection, this`resizeMode, this`resizeCorner)
      ensures mode == Select ==>
        && drawing && selectionPath == [ImageCoordinates(canvasX, canvasY, imageScale, preciseMode)]
        && unchanged(this`dragStart, this`selectedSection, this`resizeMode, this`resizeCorner)
      ensures mode == Move ==>
        var p := ImageCoordinates(canvasX, canvasY, imageScale, preciseMode);
        && dragStart == Some(p)
        && unchanged(this`drawing, this`selectionPath)
        && match FindResizeHandle(clippedSections, imageScale, windowX, windowY)
           case Some(h) => selectedSection == Some(h.0) && resizeMode && resizeCorner == Some(h.1)
           case None =>
             var hit := SectionAt(clippedSections, p.x, p.y, listboxSelection);
             && selectedSection == hit
             && resizeMode == (if hit.Some? then false else old(resizeMode))
             && resizeCorner == old(resizeCorner)
    {
      var p := ImageCoordinates(canvasX, canvasY, imageScale, preciseMode);
      lastMousePos := Some(p);
      if mode == Select {
        drawing := true;
        selectionPath := [p];
      } else if mode == Move {
        PressInMove(p, windowX, windowY, listboxSelection);
      }
    }

    /**
     * The move-mode branch of `on_mouse_down`: a hit resize handle starts a
     * resize, else the section under the pointer is selected for a move,
     * else the selection is cleared.
     */
    method PressInMove(p: Point, windowX: int, windowY: int, listboxSelection: Option<nat>)
      requires Valid()
      modifies this`dragStart, this`selectedSection, this`resizeMode, this`resizeCorner
      ensures Valid()
      ensures dragStart == Some(p)
      ensures match FindResizeHandle(clippedSections, imageScale, windowX, windowY)
        case Some(h) => selectedSection == Some(h.0) && resizeMode && resizeCorner == Some(h.1)
        case None =>
          var hit := SectionAt(clippedSections, p.x, p.y, listboxSelection);
          && selectedSection == hit
          && resizeMode == (if hit.Some? then false else old(resizeMode))
          && resizeCorner == old(resizeCorner)
    {
      dragStart := Some(p);
      var handle := FindResizeHandle(clippedSections, imageScale, windowX, windowY);
      if handle.Some? {
        selectedSection := Some(handle.value.0);
        resizeMode := true;
        resizeCorner := Some(handle.value.1);
      } else {
        var hit := FindClippedSectionAtPoint(p.x, p.y, listboxSelection);
        if hit.Some? {
          selectedSection := hit;
          resizeMode := false;
        } else {
          selectedSection := None;
        }
      }
    }

    /**
     * `on_mouse_drag`: in select mode while drawing, the point is appended to
     * the path. In move mode with a selected section, the step from the last
     * pointer position resizes or moves it once it reaches the threshold
     * (0.01 pixel in precise mode, else 0.1). A resize whose resampling raises
     * leaves the last pointer position where it was.
     */
    method MouseDrag(canvasX: real, canvasY: real, now: real)
      requires Valid()
      modifies this`selectionPath, this`clippedSections, this`movementBuffer, this`lastUpdateTime, this`lastMousePos
      ensures Valid()
      ensures mode == Select && drawing ==>
        && selectionPath == old(selectionPath) + [ImageCoordinates(canvasX, canvasY, imageScale, preciseMode)]
        && unchanged(this`clippedSections, this`movementBuffer, this`lastUpdateTime, this`lastMousePos)
      ensures mode == Move && selectedSection.Some? && old(lastMousePos).Some? ==>
        selectionPath == old(selectionPath) && DragStepped(ImageCoordinates(canvasX, canvasY, imageScale, preciseMode), now)
      ensures !(mode == Select && drawing) && !(mode == Move && selectedSection.Some? && old(lastMousePos).Some?) ==>
        unchanged(this)
    {
      var p := ImageCoordinates(canvasX, canvasY, imageScale, preciseMode);
      if mode == Select && drawing {
        selectionPath := selectionPath + [p];
      } else if mode == Move && selectedSection.Some? && lastMousePos.Some? {
        DragStep(p, now);
        assert p == ImageCoordinates(canvasX, canvasY, imageScale, preciseMode);
      }
    }

    /**
     * The move-mode branch of `on_mouse_drag` for the image point p: below
     * the threshold nothing happens; otherwise the selected section is
     * resized or moved by the step from the last pointer position.
     */
    method DragStep(p: Point, now: real)
      requires Valid() && selectedSection.Some? && lastMousePos.Some?
      modifies this`clippedSections, this`movementBuffer, this`lastUpdateTime, this`lastMousePos
      ensures Valid()
      ensures DragStepped(p, now)
    {
      var dx := p.x - lastMousePos.value.x;
      var dy := p.y - lastMousePos.value.y;
      var threshold := if preciseMode then 0.01 else 0.1;
      if Abs(dx) >= threshold || Abs(dy) >= threshold {
        assert DragReaches(lastMousePos.value, p, preciseMode);
        if resizeMode {
          DragResize(p);
        } else {
          DragMove(p, now);
        }
      } else {
        assert !DragReaches(old(lastMousePos).value, p, preciseMode);
      }
    }

    /**
     * The outcome of a move-mode drag to p: nothing changes below the
     * threshold; otherwise the resize or the move of the selected section.
     */
    twostate predicate DragStepped(p: Point, now: real)
      requires old(lastMousePos).Some? && old(selectedSection).Some?
      requires old(resizeMode) ==> old(resizeCorner).Some?
      requires |old(movementBuffer)| <= BufferSize && old(SectionsValid())
      reads this
    {
      if !DragReaches(old(lastMousePos).value, p, old(preciseMode)) then
        && clippedSections == old(clippedSections) && movementBuffer == old(movementBuffer)
        && lastUpdateTime == old(lastUpdateTime) && lastMousePos == old(lastMousePos)
      else if old(resizeMode) then ResizedBy(p)
      else MovedBy(p, now)
    }

    /**
     * The outcome of the resize branch of a drag to p: the selected section
     * becomes the outcome of `Resized` for the step from the last pointer
     * position, and the pointer is recorded unless the resize raised. An
     * index past the end is ignored by the resize.
     */
    twostate predicate ResizedBy(p: Point)
      requires old(lastMousePos).Some? && old(selectedSection).Some? && old(resizeCorner).Some?
      requires old(SectionsValid())
      reads this
    {
      var dx, dy := p.x - old(lastMousePos).value.x, p.y - old(lastMousePos).value.y;
      var index := old(selectedSection).value;
      && movementBuffer == old(movementBuffer) && lastUpdateTime == old(lastUpdateTime)
      && (index < |old(clippedSections)| ==>
            var r := Resized(old(clippedSections)[index], old(resizeCorner).value, dx, dy);
            && clippedSections == (if r.Rejected? then old(clippedSections) else old(clippedSections)[index := r.section])
            && lastMousePos == (if r.Raised? then old(lastMousePos) else Some(p)))
      && (index >= |old(clippedSections)| ==> clippedSections == old(clippedSections) && lastMousePos == Some(p))
    }

    /**
     * The outcome of the move branch of a drag to p: sections, buffer and
     * throttle time become those of `MoveEffectOf` for the step from the last
     * pointer position, and the pointer is recorded.
     */
    twostate predicate MovedBy(p: Point, now: real)
      requires old(lastMousePos).Some? && old(selectedSection).Some? && |old(movementBuffer)| <= BufferSize
      reads this
    {
      var e := MoveEffectOf(old(clippedSections), old(movementBuffer), old(lastUpdateTime), old(smoothMovement),
                            old(selectedSection).value, p.x - old(lastMousePos).value.x,
                            p.y - old(lastMousePos).value.y, now);
      && clippedSections == e.sections && movementBuffer == e.buffer && lastUpdateTime == e.lastUpdate
      && lastMousePos == Some(p)
    }

    /** The resize branch of `on_mouse_drag`. */
    method DragResize(p: Point)
      requires Valid() && selectedSection.Some? && lastMousePos.Some? && resizeMode
      modifies this`clippedSections, this`lastMousePos
      ensures Valid()
      ensures ResizedBy(p)
    {
      var dx := p.x - lastMousePos.value.x;
      var dy := p.y - lastMousePos.value.y;
      ghost var before := clippedSections;
      var raised := ResizeClippedSection(selectedSection.value, resizeCorner.value, dx, dy);
      assert selectedSection.value < |before| ==>
        var r := Resized(before[selectedSection.value], resizeCorner.value, dx, dy);
        clippedSections == (if r.Rejected? then before else before[selectedSection.value := r.section]) && raised == r.Raised?;
      if !raised {
        lastMousePos := Some(p);
      }
    }

    /** The move branch of `on_mouse_drag`: the section follows the pointer and the pointer is recorded. */
    method DragMove(p: Point, now: real)
      requires Valid() && selectedSection.Some? && lastMousePos.Some?
      modifies this`clippedSections, this`movementBuffer, this`lastUpdateTime, this`lastMousePos
      ensures Valid()
      ensures MovedBy(p, now)
    {
      var dx := p.x - lastMousePos.value.x;
      var dy := p.y - lastMousePos.value.y;
      ghost var e := MoveEffectOf(clippedSections, movementBuffer, lastUpdateTime, smoothMovement,
                                  selectedSection.value, dx, dy, now);
      MoveClippedSection(selectedSection.value, dx, dy, now);
      assert clippedSections == e.sections && movementBuffer == e.buffer && lastUpdateTime == e.lastUpdate;
      lastMousePos := Some(p);
    }

    /**
     * `on_mouse_up`: in select mode a drawn path of more than two points
     * becomes a section (`bbox` is the bounding box of its mask); the path
     * itself is kept. In move mode the drag state is reset, unless the
     * selected index no longer names a section, where the lookup of its
     * position raises first.
     */
    method MouseUp(bbox: Option<Box>)
      requires Valid()
      requires bbox.Some? ==> bbox.value.NonEmpty()
      modifies this`drawing, this`clippedSections, this`holes, this`displayCache, this`displayOrder,
               this`imagePyramid, this`selectedSection, this`dragStart, this`resizeMode, this`resizeCorner,
               this`lastMousePos
      ensures Valid()
      ensures old(Coherent()) ==> Coherent()
      ensures mode == Select && old(drawing) ==>
        && !drawing
        && unchanged(this`selectedSection, this`dragStart, this`resizeMode, this`resizeCorner, this`lastMousePos)
        && (|selectionPath| > 2 && bbox.Some? ==>
              && clippedSections == old(clippedSections)
                   + [NewSection(selectionPath, selectedColor, |old(clippedSections)|, bbox.value)]
              && holes == old(holes) + [TruncPath(selectionPath)]
              && displayCache == map[] && displayOrder == [] && imagePyramid == map[])
        && (!(|selectionPath| > 2 && bbox.Some?) ==>
              unchanged(this`clippedSections, this`holes, this`displayCache, this`displayOrder, this`imagePyramid))
      ensures mode == Move ==>
        if old(selectedSection).Some? && old(selectedSection).value >= |clippedSections| then unchanged(this)
        else
          && selectedSection.None? && dragStart.None? && !resizeMode && resizeCorner.None? && lastMousePos.None?
          && unchanged(this`drawing, this`clippedSections, this`holes, this`displayCache, this`displayOrder,
                       this`imagePyramid)
      ensures !(mode == Select && old(drawing)) && mode != Move ==> unchanged(this)
    {
      if mode == Select && drawing {
        FinishSelection(bbox);
      } else if mode == Move {
        ReleaseDrag();
      }
    }

    /** The select-mode branch of `on_mouse_up`: drawing stops and a path of more than two points is committed. */
    method FinishSelection(bbox: Option<Box>)
      requires Valid()
      requires bbox.Some? ==> bbox.value.NonEmpty()
      modifies this`drawing, this`clippedSections, this`holes, this`displayCache, this`displayOrder, this`imagePyramid
      ensures Valid()
      ensures old(Coherent()) ==> Coherent()
      ensures !drawing
      ensures |selectionPath| > 2 && bbox.Some? ==>
        && clippedSections == old(clippedSections) + [NewSection(selectionPath, selectedColor, |old(clippedSections)|, bbox.value)]
        && holes == old(holes) + [TruncPath(selectionPath)]
        && displayCache == map[] && displayOrder == [] && imagePyramid == map[]
      ensures !(|selectionPath| > 2 && bbox.Some?) ==>
        unchanged(this`clippedSections, this`holes, this`displayCache, this`displayOrder, this`imagePyramid)
    {
      drawing := false;
      if |selectionPath| > 2 {
        CreateClippedSection(selectionPath, selectedColor, bbox);
      }
    }

    /**
     * The move-mode branch of `on_mouse_up`: the drag state is reset, unless
     * the selected index no longer names a section, where the lookup raises first.
     */
    method ReleaseDrag()
      requires Valid()
      modifies this`selectedSection, this`dragStart, this`resizeMode, this`resizeCorner, this`lastMousePos
      ensures Valid()
      ensures old(selectedSection).Some? && old(selectedSection).value >= |clippedSections| ==>
        unchanged(this`selectedSection, this`dragStart, this`resizeMode, this`resizeCorner, this`lastMousePos)
      ensures !(old(selectedSection).Some? && old(selectedSection).value >= |clippedSections|) ==>
        selectedSection.None? && dragStart.None? && !resizeMode && resizeCorner.None? && lastMousePos.None?
    {
      if selectedSection.Some? && selectedSection.value >= |clippedSections| {
        return;
      }
      selectedSection := None;
      dragStart := None;
      resizeMode := false;
      resizeCorner := None;
      lastMousePos := None;
    }

    // ================================================================ zoom and settings

    /** `zoom_in`: times 1.2 up to 10; the display cache is emptied when the zoom jumps by more than 0.5. */
    method ZoomIn()
      requires Valid()
      modifies this`imageScale, this`displayCache, this`displayOrder
      ensures Valid()
      ensures old(Coherent()) ==> Coherent()
      ensures imageScale == ZoomedIn(old(imageScale))
      ensures imageScale != old(imageScale) && Abs(imageScale - old(imageScale)) > 0.5 ==>
        displayCache == map[] && displayOrder == []
      ensures !(imageScale != old(imageScale) && Abs(imageScale - old(imageScale)) > 0.5) ==>
        unchanged(this`displayCache, this`displayOrder)
    {
      var oldScale := imageScale;
      imageScale := imageScale * 1.2;
      imageScale := Min(MaxZoomIn, imageScale);
      if oldScale != imageScale {
        if Abs(imageScale - oldScale) > 0.5 {
          displayCache, displayOrder := map[], [];
        }
      }
    }

    /** `zoom_out`: divided by 1.2 down to 0.05; the same cache rule as zooming in. */
    method ZoomOut()
      requires Valid()
      modifies this`imageScale, this`displayCache, this`displayOrder
      ensures Valid()
      ensures old(Coherent()) ==> Coherent()
      ensures imageScale == ZoomedOut(old(imageScale))
      ensures imageScale != old(imageScale) && Abs(old(imageScale) - imageScale) > 0.5 ==>
        displayCache == map[] && displayOrder == []
      ensures !(imageScale != old(imageScale) && Abs(old(imageScale) - imageScale) > 0.5) ==>
        unchanged(this`displayCache, this`displayOrder)
    {
      var oldScale := imageScale;
      imageScale := imageScale / 1.2;
      imageScale := Max(MinZoomOut, imageScale);
      if oldScale != imageScale {
        if Abs(oldScale - imageScale) > 0.5 {
          displayCache, displayOrder := map[], [];
        }
      }
    }

    /**
     * `on_mouse_wheel`: one wheel step, kept within [0.01, 50]. The display
     * cache is emptied when the zoom moved by more than 0.001 and by more
     * than 30% of the old zoom; `WheelStepIsSmall` shows that a step from a
     * zoom inside [0.01, 50] never does so.
     */
    method MouseWheel(delta: int)
      requires Valid()
      modifies this`imageScale, this`displayCache, this`displayOrder
      ensures Valid()
      ensures old(Coherent()) ==> Coherent()
      ensures imageScale == WheelScale(old(imageScale), delta)
      ensures WheelClears(old(imageScale), imageScale) ==> displayCache == map[] && displayOrder == []
      ensures !WheelClears(old(imageScale), imageScale) ==> unchanged(this`displayCache, this`displayOrder)
    {
      var oldScale := imageScale;
      if delta > 0 {
        imageScale := imageScale * 1.1;
      } else {
        imageScale := imageScale / 1.1;
      }
      imageScale := Max(MinWheelScale, Min(MaxWheelScale, imageScale));
      if Abs(oldScale - imageScale) > 0.001 {
        var scaleChange := Abs(oldScale - imageScale) / oldScale;
        if scaleChange > 0.3 {
          displayCache, displayOrder := map[], [];
        }
      }
    }

    /** `update_dpi`: see `DpiAfterInput`; the DPI stays positive. */
    method UpdateDpi(input: Option<real>)
      requires Valid()
      modifies this`imageDpi
      ensures Valid()
      ensures imageDpi == DpiAfterInput(old(imageDpi), input)
    {
      match input {
        case None =>
          imageDpi := DefaultDpi;
        case Some(v) =>
          var newDpi := Trunc(v);
          if newDpi > 0 {
            imageDpi := newDpi;
          }
      }
    }

    /** `update_grid_size_cm`: see `GridSizeAfterInput`. */
    method UpdateGridSizeCm(input: Option<real>)
      modifies this`gridSizeCm
      ensures gridSizeCm == GridSizeAfterInput(input)
    {
      if input.Some? {
        gridSizeCm := input.value;
      } else {
        gridSizeCm := DefaultGridSizeCm;
      }
    }
  }

  /**
   * `clear_selections` leaves the display cache behind: after one section is
   * cut out and the view is drawn, clearing and redrawing the same view is a
   * cache hit that still shows the cut-out hole, although the working image
   * has been reset to the original.
   */
  method StaleDisplayAfterClear() returns (shown: DisplayEntry, current: Holes)
    ensures shown.content != current
  {
    var editor := new ImageEditor(100, 100);
    var path := [Point(10.0, 10.0), Point(50.0, 10.0), Point(10.0, 50.0)];
    editor.CreateClippedSection(path, "#FF0000", Some(Box(10, 10, 51, 51)));
    var first := editor.DisplayImage(0.0, 0.0, 800, 600);
    editor.ClearSelections();
    shown := editor.DisplayImage(0.0, 0.0, 800, 600);
    current := editor.holes;
  }
}
