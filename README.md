# Image editor section engine in Dafny

This project models the editing core of the `ImageEditor` class in
`image_editor.py`, a desktop tool for cutting regions out of a scanned
image and moving them around. A user draws a closed path in *select* mode.
The path becomes a *clipped section*: a record holding its position, size,
hit-test boundary, colour, id and a snapshot of its original shape. Cutting
also punches a hole into the *working image*. In *move* mode a section is
dragged, nudged with the arrow keys by a step in centimetres, snapped to a
centimetre grid, or resized by one of its four corner handles with its
aspect ratio locked. The display goes through a resolution pyramid and an
LRU cache of rendered viewports. Drags are damped by a three-sample
smoother and a frame-rate throttle. A separate merge tool lays several
images out in a row, a column or a grid.

Modules, one per file:

- `Geometry` (`geometry.dfy`): points, Python's `int()` (truncation toward zero) and `round()` (ties to even), shifting a boundary.
- `Units` (`units.dfy`): pixel/centimetre conversion at a DPI and grid snapping.
- `HitTest` (`hittest.dfy`): the ray-casting `point_in_polygon` as a loop, with its specification and translation invariance.
- `Sections` (`sections.dfy`): the section record, creation, translation, duplication, the aspect-locked corner resize and handle lookup.
- `Pyramid` (`pyramid.dfy`): the level ladder and the clamped display dimensions.
- `DisplayLru` (`display_lru.dfy`): the key order of the display cache's ordered dictionary, as a sequence, and the cache's entries.
- `Smoothing` (`smoothing.dfy`): the movement queue and its recency-weighted average.
- `EditorRules` (`editor_rules.dfy`): the pure rules the editor applies (coordinates, zoom, DPI, throttle, cache keys, section lookup, the effect of a drag step).
- `MergeLayout` (`merge_layout.dfy`): the offsets and canvas size of `create_merged_image`.
- `Editor` (`editor.dfy`): the class `ImageEditor`, whose fields the methods update in place.

The working image is abstracted to the list of hole polygons punched into
the original, in order (`holes`). Each display-cache entry and pyramid
level records the holes it was rendered from. `Coherent()` states that
every cached bitmap shows the current working image.

## Model

| member | source | states |
|---|---|---|
| Geometry.Trunc | image_editor.py:2492 | `int()` truncates toward zero: for r ≥ 0 the result is the floor, for r < 0 the ceiling |
| Geometry.RoundHalfEven | image_editor.py:1950-1951 | `round()` is within 0.5 of its argument, and an exact tie goes to the even integer |
| Geometry.TruncOfInteger | image_editor.py:2492 | `int()` leaves a whole number unchanged |
| Geometry.RoundOfInteger | image_editor.py:2614-2615 | `round()` leaves a whole number unchanged |
| Geometry.ShiftAll | image_editor.py:2592 | the shifted boundary has the same length, and each vertex is moved by (dx, dy) |
| Geometry.ShiftAllInverse | image_editor.py:2592 | shifting a boundary by (dx, dy) and then by (−dx, −dy) restores it exactly |
| Geometry.ShiftAllCompose | image_editor.py:2592 | two shifts of a boundary equal one shift by the summed deltas |
| Geometry.TruncPath | image_editor.py:2492 | the polygon handed to the rasteriser keeps every vertex, each coordinate truncated by `int()` |
| Units.PixelsToCm | image_editor.py:3517-3520 | cm · dpi = pixels · 2.54, and a non-negative length stays non-negative |
| Units.CmToPixels | image_editor.py:3522-3525 | pixels · 2.54 = cm · dpi, and a non-negative length stays non-negative |
| Units.PixelsCmRoundTrip | image_editor.py:3517-3525 | converting pixels to cm and back gives the same pixels for every positive DPI |
| Units.CmPixelsRoundTrip | image_editor.py:3517-3525 | converting cm to pixels and back gives the same cm for every positive DPI |
| Units.OneCmAt300Dpi | image_editor.py:3522-3525 | at the default 300 DPI one grid centimetre is 15000/127 pixels |
| Units.SnapToGridPosition | image_editor.py:3559-3570 | identity when snapping is off; otherwise each coordinate becomes a grid multiple within half a grid step, and a zero grid spacing is the division error (None) |
| Units.SnapCoordinate | image_editor.py:3567-3568 | round(v / g) · g is a multiple of g and at most \|g\|/2 away from v |
| Units.SnapBound | image_editor.py:3567-3568 | any k within 0.5 of v / g gives a grid multiple within \|g\|/2 of v |
| HitTest.PointInPolygon | image_editor.py:2717-2737 | the loop's `inside` equals the parity of the edges the ray from (x, y) crosses; fewer than 3 vertices give False. The reference is `Inside`: at least 3 vertices and an odd `Crossings`, the count of edges, closing edge included, for which `EdgeToggles` holds |
| HitTest.EdgeStep | image_editor.py:2728-2734 | one loop step toggles `inside` exactly when the edge from p1 to p2 crosses the ray from (x, y) (`EdgeToggles`) |
| HitTest.EdgeTogglesShift | image_editor.py:2725-2733 | whether an edge toggles `inside` is unchanged when the edge and the point are shifted together |
| HitTest.XIntersectShift | image_editor.py:2731 | the crossing abscissa of a shifted edge is shifted by dx |
| HitTest.CrossingsShift | image_editor.py:2724-2734 | the crossing count is invariant under shifting polygon and point together |
| HitTest.InsideShift | image_editor.py:2717-2737 | a point is inside a shifted polygon exactly when the unshifted point is inside the original |
| HitTest.SquareHitTests | image_editor.py:2717-2737 | on the square (0,0)–(100,100): (50,50) is inside, (150,50) and the edge point (50,0) are not |
| HitTest.DegenerateNeverInside | image_editor.py:2719-2720 | a polygon with fewer than 3 vertices contains no point |
| Sections.NewSection | image_editor.py:2546-2557 | the appended record is well formed: position is the bbox's top-left corner, size and original size are the bbox extent, and boundary and original boundary are the path |
| Sections.Translated | image_editor.py:2587-2592 | a move keeps a section well formed |
| Sections.TranslatedInverse | image_editor.py:2587-2592 | moving by (dx, dy) and then by (−dx, −dy) restores position and boundary exactly |
| Sections.TranslatedKeepsShape | image_editor.py:2587-2592 | a moved section stays well formed and anchored: its boundary is still its original boundary placed at its position with the same scale |
| Sections.HitTestFollowsMove | image_editor.py:2592 | after a move by (dx, dy), (x+dx, y+dy) hits the section exactly when (x, y) did before |
| Sections.DuplicateLeavesBoundaryBehind | image_editor.py:1208-1211 | the duplicate's position moves by 20 but its boundary is the original's, so it is no longer anchored at its position. `Duplicated` is that shallow copy: position +20 on both axes, a new id, every other field shared |
| Sections.DragCandidate | image_editor.py:2431-2452 | the two edges next to the dragged corner move by (dx, dy) and the opposite edges stay where they were |
| Sections.LockScale | image_editor.py:2461 | the lock scale fits both axes of the candidate and is tight on at least one |
| Sections.LockedSize | image_editor.py:2461-2463 | each final side is int(original side · scale) for one common scale, and neither exceeds the candidate |
| Sections.Resized | image_editor.py:2453-2481 | a candidate under 20 on either axis is rejected with nothing changed; otherwise position is the candidate's corner and size the locked size. The boundary is rebuilt from the original boundary at the recomputed scale, keeping its vertex count. A zero side raises after position and size were written |
| Sections.ResizeShrinksBelowMinimum | image_editor.py:2455-2463 | a 10×100 section dragged to a 20×20 candidate is accepted and becomes 2×20 |
| Sections.ResizeReachesZeroWidth | image_editor.py:2455-2470 | a 1×100 section dragged to a 20×20 candidate locks to 0×20, which the resampler rejects |
| Sections.ThinLocks | image_editor.py:2461-2463 | the lock of a 20×20 candidate over 10×100 is 2×20, and over 1×100 it is 0×20 |
| Sections.ResizedCorrected | image_editor.py:2455-2481 | a resize that is accepted leaves both sides at 20 or more, matches the resize as written, and never raises; rejection happens exactly when the candidate or the locked size is under 20 |
| Sections.CorrectedResizeRejectsThinResults | image_editor.py:2455-2463 | the corrected resize rejects both drags of the findings |
| Sections.FirstCornerHit | image_editor.py:2400-2417 | the returned corner's handle square contains the point, and no earlier corner in tl, tr, bl, br order does. `HandleAt` is the corner of the section's scaled, `int()`-truncated rectangle, and `HandleHit` the ±4 square around it |
| Sections.FindResizeHandle | image_editor.py:2392-2419 | returns the first section, in list order, with a hit handle, and its first hit corner; None when no handle of any section is hit |
| Pyramid.OptimalPyramidLevel | image_editor.py:1595-1606 | the level is one of 1, 0.5, 0.25, 0.1, 0.05; it is 1 exactly when the zoom is ≥ 1; it never exceeds a zoom ≥ 0.05 |
| Pyramid.OptimalLevelMonotone | image_editor.py:1595-1606 | a larger zoom never selects a smaller level |
| Pyramid.LadderLeavesDeclaredLevels | image_editor.py:226 | zoom 0.3 selects level 0.25, which is not in the declared `pyramid_levels` |
| Pyramid.DisplayDimension | image_editor.py:1489-1490 | the display side is int(original · zoom) clamped to [1, 32000] |
| Pyramid.LevelDimension | image_editor.py:1616-1623 | level 1.0 keeps the original size; any other level is at least 1 and otherwise int(original · level) |
| DisplayLru.Without | image_editor.py:1469 | popping a key removes exactly that key and keeps the order repetition-free |
| DisplayLru.Touch | image_editor.py:1467-1470 | a hit moves its key to the most-recent end and keeps the same keys |
| DisplayLru.Insert | image_editor.py:1677-1690 | when 8 keys are held the oldest is dropped; a new key is appended, a present one keeps its place; at most 8 keys, no repetition |
| DisplayLru.MissesKeepNewest | image_editor.py:1677-1690 | a run of distinct misses leaves exactly the newest 8 keys, oldest first |
| DisplayLru.NineMissesEvictFirst | image_editor.py:1677-1690 | after 9 distinct misses the first key is gone and the other 8 remain in order |
| DisplayLru.DistinctCardinality | image_editor.py:1680 | a repetition-free order has as many keys as the dictionary has entries |
| DisplayLru.InsertElements | image_editor.py:1680-1685 | the keys after a miss are the old keys, less the oldest when 8 are held, plus the new key |
| DisplayLru.EvictThenAssign | image_editor.py:1680-1690 | deleting the oldest key of a full cache and then assigning the new key gives exactly `Insert` and `StoreEntry`, whether or not the cache was full |
| DisplayLru.StoreEntry | image_editor.py:1677-1690 | the new key maps to the new entry, the other surviving keys keep their entries, the keys are those of the new order, and there are at most 8 |
| Smoothing.Pushed | image_editor.py:3572-3582 | the queue keeps at most 3 samples: the newest is last and the rest are the newest of the old ones |
| Smoothing.Weights | image_editor.py:3595 | the sample at index i of n weighs (i+1)/n, which is positive |
| Smoothing.TotalPositive | image_editor.py:3601-3603 | the total weight of a non-empty buffer is positive, so the division always happens |
| Smoothing.GetSmoothedMovement | image_editor.py:3584-3605 | the loop returns (0, 0) for an empty buffer and otherwise the weighted averages of the dx and dy samples |
| Smoothing.WeightedSumOfConstant | image_editor.py:3594-3599 | the weighted sum of a constant d is d times the total weight |
| Smoothing.AverageOfConstant | image_editor.py:3584-3605 | averaging equal values gives that value |
| Smoothing.SmoothedOfConstant | image_editor.py:3584-3605 | a buffer of identical deltas d smooths to exactly d |
| Smoothing.WeightedSumBounds | image_editor.py:3594-3599 | the weighted sum lies between the smallest and the largest value times the total weight |
| Smoothing.AverageWithinRange | image_editor.py:3601-3603 | the weighted average never leaves the range of the averaged values |
| Smoothing.SmoothedWithinRange | image_editor.py:3584-3605 | the smoothed delta lies within the range of the buffered deltas on each axis |
| MergeLayout.MaxOf | image_editor.py:4543 | the maximum is one of the values and no value exceeds it |
| MergeLayout.ISqrt | image_editor.py:4575 | `int(n ** 0.5)` is the integer square root: r² ≤ n < (r+1)² |
| MergeLayout.GridColumns | image_editor.py:4575 | a non-empty grid has at least one column |
| MergeLayout.PlaceHorizontally | image_editor.py:4540-4554 | the loop's offsets and canvas equal the horizontal layout |
| MergeLayout.PlaceVertically | image_editor.py:4556-4570 | the loop's offsets and canvas equal the vertical layout |
| MergeLayout.PlaceInGrid | image_editor.py:4572-4597 | the loop's offsets and canvas equal the grid layout |
| MergeLayout.CreateMergedImage | image_editor.py:4533-4597 | no images gives nothing; a negative canvas side is Pillow's error; otherwise the layout of the chosen arrangement |
| MergeLayout.SumGrows | image_editor.py:4542 | prefix sums of non-negative widths grow by at least each width |
| MergeLayout.CentredMargin | image_editor.py:4552 | `(outer − inner) // 2` centres the inner side to within one pixel |
| MergeLayout.HorizontalStrip | image_editor.py:4540-4554 | for spacing ≥ 0 every image fits the canvas, consecutive images are at least `spacing` apart, and each is centred vertically to within one pixel |
| MergeLayout.VerticalStrip | image_editor.py:4556-4570 | for spacing ≥ 0 every image fits the canvas, consecutive images are at least `spacing` apart, and each is centred horizontally to within one pixel |
| MergeLayout.GridShape | image_editor.py:4574-4576 | cols is the integer square root, rows · cols ≥ n, and one row fewer would not hold all images |
| MergeLayout.GridCells | image_editor.py:4590-4592 | every image lands in a row that exists, and no two images share a cell |
| MergeLayout.GridFits | image_editor.py:4572-4597 | for spacing ≥ 0 every image lies within the grid canvas |
| MergeLayout.ArrangedFits | image_editor.py:4533-4597 | for spacing ≥ 0 the layout of every arrangement places every image within its canvas |
| MergeLayout.MergeSucceedsAndFits | image_editor.py:4533-4597 | for a non-empty list and spacing ≥ 0 every arrangement succeeds and every image fits its canvas |
| EditorRules.ImageCoordinates | image_editor.py:1945-1951 | in precise mode the point times the zoom is the canvas point; otherwise the coordinates are whole and within 0.5 of canvas / zoom |
| EditorRules.ZoomedIn | image_editor.py:2765-2767 | zoom in multiplies by 1.2 and never exceeds 10 |
| EditorRules.ZoomedOut | image_editor.py:2780-2782 | zoom out divides by 1.2 and never goes under 0.05 |
| EditorRules.ZoomOutUndoesZoomIn | image_editor.py:2763-2791 | away from the clamps, zooming out undoes zooming in exactly |
| EditorRules.WheelScale | image_editor.py:2805-2820 | one wheel step keeps the zoom within [0.01, 50] |
| EditorRules.WheelStepIsSmall | image_editor.py:2822-2829 | from a zoom in [0.01, 50] one wheel step changes the zoom by at most a tenth, so the cache-clearing test `WheelClears` never passes |
| EditorRules.WheelClearsOutsideRange | image_editor.py:2802-2829 | from a zoom outside [0.01, 50] one step can clear the cache: 100 zoomed in is clamped to 50, and 0.005 zoomed out is raised to 0.01, both changes above 30% |
| EditorRules.DpiAfterInput | image_editor.py:3473-3501 | the DPI stays positive: an unparsable entry resets it to 300, a positive `int()` of the entry is taken, anything else keeps the current value |
| EditorRules.DpiExamples | image_editor.py:3473-3501 | 150.7 gives 150; 0.9 and −72 keep 300; an unparsable entry from 96 resets to 300 |
| EditorRules.GridSizeAfterInput | image_editor.py:3430-3438 | a parsed entry becomes the grid size and an unparsable one resets it to 1 cm |
| EditorRules.ThrottleSpacing | image_editor.py:3607-3615 | after an update at `now` the next one is due exactly 8 ms later or more |
| EditorRules.KeyFor | image_editor.py:1464 | the viewport key holds the zoom to four decimals and the scroll offsets to whole pixels, within rounding, plus the visible size |
| EditorRules.NearbyScalesShareKey | image_editor.py:1464 | zooms 1.00001 and 1.0 share a cache key while 1.0001 does not |
| EditorRules.HolesOf | image_editor.py:3673-3680 | the rebuilt working image has one hole per section, punched from its current boundary truncated by `int()` |
| EditorRules.RemovedAt | image_editor.py:3758-3759 | `pop(i)` keeps the entries before i and shifts those after it down by one |
| EditorRules.TopmostAt | image_editor.py:2708-2715 | the reversed scan returns the highest index whose boundary contains the point, or None when none does |
| EditorRules.SectionAt | image_editor.py:2696-2715 | the selected entry wins when its boundary contains the point; otherwise the topmost hit; None only when no boundary contains it |
| EditorRules.DirectTarget | image_editor.py:2606-2617 | the new position is old + step, snapped to the grid when snapping, rounded to whole pixels unless precise; a zero grid spacing fails |
| EditorRules.KeyboardDelta | image_editor.py:2664-2671 | an arrow step is ± the step converted to pixels at the current DPI, or 0 on the other axis |
| EditorRules.MoveEffectOf | image_editor.py:2569-2597 | out of range changes nothing; without smoothing the section moves by exactly (dx, dy); with smoothing the sample is queued and the throttle consulted; other sections never change |
| EditorRules.MoveThenMoveBack | image_editor.py:2569-2597 | without smoothing, a move by (dx, dy) followed by (−dx, −dy) restores every section |
| EditorRules.SmallEarlyStepMovesNothing | image_editor.py:2581-2595 | with smoothing, a step of at most 1 pixel per axis before the 8 ms interval moves nothing and leaves the throttle time alone |
| EditorRules.SmoothedMoveWithinRange | image_editor.py:2581-2592 | with smoothing, the applied delta lies within the range of the queued deltas |
| EditorRules.MoveKeepsAnchoring | image_editor.py:2569-2597 | every kind of move keeps the section well formed and anchored to its original shape |
| Editor.ImageEditor.constructor | image_editor.py:120-235 | initial state: zoom 1, 300 DPI, 1 cm grid, smoothing on, colour #FF0000, no sections, empty caches, counters and buffer |
| Editor.ImageEditor.GetPyramidLevel | image_editor.py:1608-1637 | a level is built from the current working image only when absent; a present level is returned unchanged |
| Editor.ImageEditor.CacheDisplayResult | image_editor.py:1677-1690 | the cache's order and entries become `Insert` and `StoreEntry` of the old ones, and the cache invariant holds; caching an entry that shows the current working image keeps every cached bitmap current |
| Editor.ImageEditor.DisplayImage | image_editor.py:1442-1517 | a hit touches the key, returns the cached entry and counts a hit; a miss counts a miss, fetches or builds the level and caches the clamped display; the shown content is the working image whenever the caches were coherent |
| Editor.ImageEditor.DisplayHit | image_editor.py:1467-1478 | the cached entry is shown, its key becomes the most recent, a hit is counted and the entries and pyramid are unchanged (`CacheHit`) |
| Editor.ImageEditor.DisplayMiss | image_editor.py:1479-1517 | a miss is counted, the level for the zoom is fetched or built, the display is sized from the original and the zoom, and the entry is cached by `Insert`/`StoreEntry` (`CacheMiss`) |
| Editor.ImageEditor.CreateClippedSection | image_editor.py:2485-2567 | a short path or an empty mask changes nothing; otherwise one section is appended with id = old count, its hole is punched and both caches are emptied |
| Editor.ImageEditor.RebuildWorkingImage | image_editor.py:3668-3684 | one hole per current boundary, both caches empty |
| Editor.ImageEditor.UndoLastSelection | image_editor.py:3659-3666 | pops only the last section, then rebuilds; an empty list changes nothing |
| Editor.ImageEditor.DeleteSelectedSection | image_editor.py:3754-3763 | removes entry i only when 0 ≤ i < count, then rebuilds |
| Editor.ImageEditor.ClearSelections | image_editor.py:3651-3657 | empties the list and resets the working image, leaving the display cache and the pyramid as they were |
| Editor.ImageEditor.ClearSelectionsCorrected | image_editor.py:3651-3657 | also empties both caches, so every cached bitmap shows the current working image |
| Editor.StaleDisplayAfterClear | image_editor.py:3651-3657 | cut, draw, clear, draw again: the redraw is a cache hit that still shows the hole, although the working image has none |
| Editor.ImageEditor.DuplicateSection | image_editor.py:1200-1215 | appends the duplicate of the selected entry with id = old count; an invalid selection changes nothing |
| Editor.ImageEditor.AddMovementToBuffer | image_editor.py:3572-3582 | the buffer becomes `Pushed` of the old buffer and the new sample |
| Editor.ImageEditor.ShouldUpdateDisplay | image_editor.py:3607-3615 | true exactly when 8 ms have passed (`UpdateDue`: now − last ≥ 8), and only then is the update time set to now |
| Editor.ImageEditor.SetSmoothMovement | image_editor.py:3549-3557 | turning smoothing off empties the buffer; turning it on keeps it |
| Editor.ImageEditor.MoveClippedSection | image_editor.py:2569-2597 | sections, buffer and update time become those of `MoveEffectOf` |
| Editor.ImageEditor.MoveUnbuffered | image_editor.py:2590-2594 | without smoothing the indexed section is translated by exactly (dx, dy), the others are kept, and every section stays well formed |
| Editor.ImageEditor.MoveSmoothed | image_editor.py:2579-2595 | the smoothing branch: sections, buffer and update time become those of `MoveEffectOf` with smoothing on |
| Editor.ImageEditor.DirectMoveKeepsAnchoring | image_editor.py:2618-2623 | the boundary moves by the actual change of position, so a direct move keeps the section anchored and leaves the others alone. `DirectMoved` is the section list after the move: unchanged for an index out of range or a zero grid spacing, else the indexed section translated to the `DirectTarget` |
| Editor.ImageEditor.MoveClippedSectionDirect | image_editor.py:2599-2623 | the section moves to the snapped, rounded or exact target, and its boundary by the same actual delta |
| Editor.ImageEditor.MoveSelectedSection | image_editor.py:2647-2694 | no selection, an index past the end or an unparsable step change nothing; otherwise a direct move by direction · step in pixels |
| Editor.ImageEditor.ResizeClippedSection | image_editor.py:2421-2483 | an out-of-range index changes nothing; otherwise the section becomes the outcome of `Resized`, and `raised` reports the zero-side case |
| Editor.ImageEditor.FindClippedSectionAtPoint | image_editor.py:2696-2715 | the loop's answer equals `SectionAt` |
| Editor.ImageEditor.MouseDown | image_editor.py:1936-1991 | records the pointer; select mode starts a one-point path; move mode takes a hit handle for a resize, else the section under the pointer, else clears the selection |
| Editor.ImageEditor.PressInMove | image_editor.py:1969-1990 | the drag start is recorded; a hit handle selects its section in resize mode with its corner; else the section under the pointer is selected for a move; else the selection is cleared |
| Editor.ImageEditor.MouseDrag | image_editor.py:1992-2049 | select mode appends the point; move mode below the threshold does nothing, else resizes (keeping the last pointer if the resize raised) or moves and records the pointer |
| Editor.ImageEditor.DragResize | image_editor.py:2040-2044 | the selected section becomes the outcome of `Resized` for the step from the last pointer position (`ResizedBy`); the pointer is recorded unless the resize raised; buffer and throttle are untouched |
| Editor.ImageEditor.DragMove | image_editor.py:2045-2049 | sections, buffer and update time become those of `MoveEffectOf` for the step from the last pointer position, and the pointer is recorded (`MovedBy`) |
| Editor.ImageEditor.DragStep | image_editor.py:2032-2049 | below the threshold nothing changes; at or above it the outcome is `ResizedBy` in resize mode and `MovedBy` otherwise (`DragStepped`) |
| Editor.ImageEditor.FinishSelection | image_editor.py:2061-2069 | drawing stops; a path of more than 2 points with a non-empty mask is appended as a section, its hole punched and both caches emptied; otherwise the store is unchanged |
| Editor.ImageEditor.ReleaseDrag | image_editor.py:2078-2092 | the drag state is reset to nothing selected, no resize and no pointer, except when the selected index is past the end, where the lookup raises and nothing changes |
| Editor.ImageEditor.MouseUp | image_editor.py:2051-2092 | select mode stops drawing and commits a path of more than 2 points; move mode resets the drag state unless the selected index has gone, which raises first |
| Editor.ImageEditor.ZoomIn | image_editor.py:2763-2776 | the zoom becomes `ZoomedIn`; the display cache is emptied exactly when the zoom changed by more than 0.5 |
| Editor.ImageEditor.ZoomOut | image_editor.py:2778-2791 | the zoom becomes `ZoomedOut`; the display cache is emptied exactly when the zoom changed by more than 0.5 |
| Editor.ImageEditor.MouseWheel | image_editor.py:2793-2840 | the zoom becomes `WheelScale`; the display cache is emptied exactly when the zoom moved by more than 0.001 and by more than 30% of the old zoom (`WheelClears`), and is otherwise unchanged |
| Editor.ImageEditor.UpdateDpi | image_editor.py:3473-3501 | the DPI becomes `DpiAfterInput` and stays positive |
| Editor.ImageEditor.UpdateGridSizeCm | image_editor.py:3430-3438 | the grid size becomes `GridSizeAfterInput` |

Notes on how the model reads the code:

- `rebuild_working_image` punches its holes from each section's current `boundary` (line 3679), although the comment above it says "original". The model does the same (`HolesOf`).
- `duplicate_section` makes a shallow copy and moves only `position` (lines 1208-1210). The duplicate's boundary therefore stays over the section it was copied from (`DuplicateLeavesBoundaryBehind`). The shared boundary list is never mutated in place (moves and resizes assign a new list), so values model it exactly.
- `_get_optimal_pyramid_level` returns 0.25, which is not one of the declared `pyramid_levels` (line 226). The declared list is never used to pick a level.
- `on_mouse_up` leaves `selection_path` as it was after committing it.
- `find_resize_handle_at_point` receives the event's window coordinates (line 1972), while sections are looked up in image coordinates. `MouseDown` keeps that difference.
- The wheel's cache-clearing branch (lines 2825-2829) never fires while the zoom lies in [0.01, 50], because one step then changes the zoom by at most 10% (`WheelStepIsSmall`). `resize_image_to_fit` (line 3212), `fit_image_to_lines` (line 3244) and `load_project` (line 3877) set the zoom without that clamp, and from such a zoom the branch can fire (`WheelClearsOutsideRange`). The editor's invariant therefore only asks for a positive zoom.
- The merge spacing comes from a free-text entry, so it may be negative. A negative canvas side is Pillow's `ValueError`, modelled as `InvalidCanvas`.

## Left out

- tkinter: widgets, canvas drawing, status text and the listbox. The listbox selection is a parameter (`Option<nat>`), and the listbox updates made by `on_mouse_down` and `find_clipped_section_at_point` are not modelled.
- Pillow pixel work (masks, compositing, resampling, `PhotoImage`). A raster is its dimensions, and the working image is its list of holes. The mask's bounding box is an input of section creation (`None` for an empty mask).
- File and dialog I/O, project files, export, and `_extract_and_set_dpi`.
- The clock. `now` (milliseconds) is a parameter, and one `now` serves both reads of the clock in a smoothed move.
- psutil memory budgets, diagnostics, and the unused threading/GPU fields.
- `interpolate_movement` and `_schedule_overlay_rendering`: deferred timer callbacks.
- `resize_image_to_fit`, `fit_image_to_lines` and `load_project`, which set the zoom to a fitted or stored value without the wheel's clamp. The model admits any positive zoom as a starting point; a stored zoom of 0 or less is not modelled.
- The freeform merge editor, fit-to-window and panning. The freeform arrangement and unknown arrangement strings of `create_merged_image` are also out.
- The ruler and guide-line handlers, which can intercept mouse events first. The model assumes they do not.
- The "no image loaded" guards. The model always has an image.
- The legacy display path and the exception fallbacks of `_display_image_optimized` and `_create_pyramid_level`. The resampling of the pyramid level to the display size is also out; an entry records its size and content.
- EditorRules.KeyFor: leaves out the image hash in the viewport key (constant for one image). It approximates the `.4f`/`.0f` formatting by round-half-even of the scaled value.
- Floating point: floats are exact reals, so results such as `int(0.2 * 10)` carry no rounding error. `int(n ** 0.5)` is the exact integer square root.
- EditorRules.DpiAfterInput: an infinite DPI entry (`OverflowError` in `int()`) is not modelled; an entry is a real or unparsable (`None`).
- The reset of the entry widgets' text after an invalid DPI, grid or step entry.
- The trailing `display_image()` calls of the edit operations. `DisplayImage` models one call, separately.
- Editor.ImageEditor.MouseWheel: takes the wheel's `delta` only; the `num` branch for X11 button events is not modelled.
- Editor.ImageEditor.MouseDrag, Editor.ImageEditor.MouseUp and Editor.ImageEditor.ResizeClippedSection: model the resize as written (`Resized`). The corrected `ResizedCorrected` is proved beside it but is not used by the handlers.

## Findings

| source | as written | input that shows it | evidently intended | confidence | as-written member | corrected member |
|---|---|---|---|---|---|---|
| image_editor.py:3651-3657 | `clear_selections` resets the working image but keeps `display_cache` and `image_pyramid`, and the viewport key does not depend on the sections | cut one section, display, clear, display the same viewport again: a cache hit shows the old hole | empty both caches, as `create_clipped_section` and `rebuild_working_image` do | high (not executed) | Editor.StaleDisplayAfterClear | Editor.ImageEditor.ClearSelectionsCorrected |
| image_editor.py:2455-2473 | the minimum of 20 is checked on the dragged candidate only, before the aspect lock shrinks one side | a 10×100 section dragged by (10, −80) at its br corner becomes 2×20; a 1×100 one dragged by (19, −80) locks to 0×20 and the resize raises after position and size were written | reject a resize whose locked size has a side under 20 | medium (not executed) | Sections.ResizeShrinksBelowMinimum | Sections.ResizedCorrected |
