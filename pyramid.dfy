/**
 * The resolution pyramid's level selection and the display-size arithmetic of
 * the viewport renderer.
 */
module Pyramid {
  import opened Geometry

  /** The resolution factors the editor declares for its pyramid. */
  const PyramidLevels: seq<real> := [0.025, 0.05, 0.1, 0.2, 0.5, 0.75, 1.0]
  /** Largest display width or height the renderer asks the resampler for. */
  const MaxDisplayDimension: int := 32000

  /**
   * `_get_optimal_pyramid_level`: the threshold ladder 1.0, 0.5, 0.25, 0.1,
   * 0.05. Full resolution exactly when zoomed to 100% or more; otherwise a level
   * no finer than the display scale, except below 0.05 where the coarsest is used.
   */
  function OptimalPyramidLevel(scale: real): (level: real)
    ensures level in {1.0, 0.5, 0.25, 0.1, 0.05}
    ensures level == 1.0 <==> scale >= 1.0
    ensures scale >= 0.05 ==> level <= scale
    ensures scale < 1.0 ==> level * 2.5 > scale
  {
    if scale >= 1.0 then 1.0
    else if scale >= 0.5 then 0.5
    else if scale >= 0.25 then 0.25
    else if scale >= 0.1 then 0.1
    else 0.05
  }

  /** A larger display scale never selects a coarser level. */
  lemma OptimalLevelMonotone(a: real, b: real)
    requires a <= b
    ensures OptimalPyramidLevel(a) <= OptimalPyramidLevel(b)
  {
  }

  /** The ladder can pick 0.25, a factor that is not among the declared levels. */
  lemma LadderLeavesDeclaredLevels()
    ensures OptimalPyramidLevel(0.3) == 0.25
    ensures 0.25 !in PyramidLevels
  {
  }

  /** `max(1, min(int(orig * scale), 32000))`: a display side, clamped to [1, 32000]. */
  function DisplayDimension(orig: int, scale: real): (d: int)
    ensures 1 <= d <= MaxDisplayDimension
    ensures 1 <= Trunc(orig as real * scale) <= MaxDisplayDimension ==> d == Trunc(orig as real * scale)
    ensures Trunc(orig as real * scale) > MaxDisplayDimension ==> d == MaxDisplayDimension
    ensures Trunc(orig as real * scale) < 1 ==> d == 1
  {
    var t := Trunc(orig as real * scale);
    if t < 1 then 1 else if t > MaxDisplayDimension then MaxDisplayDimension else t
  }

  /**
   * A side of a pyramid level as `_create_pyramid_level` builds it: the working
   * image itself at factor 1.0, otherwise `max(1, int(orig * level))`.
   */
  function LevelDimension(orig: int, level: real): (d: int)
    ensures level == 1.0 ==> d == orig
    ensures level != 1.0 ==> d >= 1
    ensures level != 1.0 && Trunc(orig as real * level) >= 1 ==> d == Trunc(orig as real * level)
  {
    if level == 1.0 then orig
    else
      var t := Trunc(orig as real * level);
      if t < 1 then 1 else t
  }
}
