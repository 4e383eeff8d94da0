/**
 * Coordinates of the source raster. The editor keeps positions and polygon
 * vertices as Python floats; they are modelled as exact reals, and the two
 * float-to-int conversions the editor uses are written out explicitly.
 */
module Geometry {

  /** A point (x, y) in source-raster pixel coordinates. */
  datatype Point = Point(x: real, y: real)

  /** A vertex after `int()`, as handed to the polygon rasteriser. */
  datatype IntPoint = IntPoint(x: int, y: int)

  function Min(a: real, b: real): real { if a <= b then a else b }

  function Max(a: real, b: real): real { if a >= b then a else b }

  function Abs(a: real): real { if a < 0.0 then -a else a }

  /** Python's `int()` on a float: truncation toward zero (not floor). */
  function Trunc(r: real): (n: int)
    ensures 0.0 <= r ==> 0 <= n && n as real <= r < n as real + 1.0
    ensures r < 0.0 ==> n <= 0 && n as real - 1.0 < r <= n as real
  {
    if r >= 0.0 then r.Floor else -((-r).Floor)
  }

  /** Python 3's `round()` on a float: nearest integer, ties to the even one. */
  function RoundHalfEven(r: real): (n: int)
    ensures -0.5 <= r - n as real <= 0.5
    ensures (r - n as real == 0.5 || n as real - r == 0.5) ==> n % 2 == 0
  {
    var f := r.Floor;
    var frac := r - f as real;
    if frac < 0.5 then f
    else if frac > 0.5 then f + 1
    else if f % 2 == 0 then f else f + 1
  }

  /** `int()` leaves a whole number alone. */
  lemma TruncOfInteger(n: int)
    ensures Trunc(n as real) == n
  {
  }

  /** A round number really is an integer, so rounding it changes nothing. */
  lemma RoundOfInteger(n: int)
    ensures RoundHalfEven(n as real) == n
  {
  }

  function Shift(p: Point, dx: real, dy: real): Point
  {
    Point(p.x + dx, p.y + dy)
  }

  /** Every vertex of `ps` moved by (dx, dy): the list comprehension of the move operations. */
  function ShiftAll(ps: seq<Point>, dx: real, dy: real): (r: seq<Point>)
    ensures |r| == |ps|
    ensures forall i :: 0 <= i < |ps| ==> r[i] == Shift(ps[i], dx, dy)
  {
    seq(|ps|, i requires 0 <= i < |ps| => Shift(ps[i], dx, dy))
  }

  /** Shifting by (dx, dy) and then by (-dx, -dy) gives back the same vertices. */
  lemma ShiftAllInverse(ps: seq<Point>, dx: real, dy: real)
    ensures ShiftAll(ShiftAll(ps, dx, dy), -dx, -dy) == ps
  {
    var back := ShiftAll(ShiftAll(ps, dx, dy), -dx, -dy);
    assert forall i :: 0 <= i < |ps| ==> back[i] == ps[i];
  }

  /** Two successive shifts are one shift by the summed delta. */
  lemma ShiftAllCompose(ps: seq<Point>, dx1: real, dy1: real, dx2: real, dy2: real)
    ensures ShiftAll(ShiftAll(ps, dx1, dy1), dx2, dy2) == ShiftAll(ps, dx1 + dx2, dy1 + dy2)
  {
    var a := ShiftAll(ShiftAll(ps, dx1, dy1), dx2, dy2);
    var b := ShiftAll(ps, dx1 + dx2, dy1 + dy2);
    assert forall i :: 0 <= i < |ps| ==> a[i] == b[i];
  }

  /** `[(int(x), int(y)) for x, y in path]`: the vertices the rasteriser fills. */
  function TruncPath(ps: seq<Point>): (r: seq<IntPoint>)
    ensures |r| == |ps|
    ensures forall i :: 0 <= i < |ps| ==> r[i] == IntPoint(Trunc(ps[i].x), Trunc(ps[i].y))
  {
    seq(|ps|, i requires 0 <= i < |ps| => IntPoint(Trunc(ps[i].x), Trunc(ps[i].y)))
  }
}
