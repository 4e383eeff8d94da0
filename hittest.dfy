/**
 * Ray-casting point-in-polygon, as the section hit-test uses it: a ray from
 * (x, y) towards +x, counting the polygon edges it crosses under the
 * half-open rule (an edge counts when min(y1, y2) < y <= max(y1, y2)).
 */
module HitTest {
  import opened Geometry

  /**
   * Does the edge p1 -> p2 flip `inside` for the point (x, y)? Within the two
   * y-tests the edge is never horizontal, so the intersection is defined.
   */
  predicate EdgeToggles(p1: Point, p2: Point, x: real, y: real)
  {
    && y > Min(p1.y, p2.y)
    && y <= Max(p1.y, p2.y)
    && x <= Max(p1.x, p2.x)
    && (p1.x == p2.x || x <= XIntersect(p1, p2, y))
  }

  /** Where the horizontal line at height y meets the (non-horizontal) edge p1 -> p2. */
  function XIntersect(p1: Point, p2: Point, y: real): real
    requires p1.y != p2.y
  {
    (y - p1.y) * (p2.x - p1.x) / (p2.y - p1.y) + p1.x
  }

  /** The number of toggling edges among the first k edges (poly[i], poly[(i+1) % n]). */
  function Crossings(poly: seq<Point>, x: real, y: real, k: nat): nat
    requires k <= |poly|
  {
    if k == 0 then 0
    else Crossings(poly, x, y, k - 1) + (if EdgeToggles(poly[k - 1], poly[k % |poly|], x, y) then 1 else 0)
  }

  /** The hit-test verdict: at least three vertices and an odd number of crossings. */
  predicate Inside(poly: seq<Point>, x: real, y: real)
  {
    |poly| >= 3 && Crossings(poly, x, y, |poly|) % 2 == 1
  }

  /**
   * The body of one iteration of `point_in_polygon`: the nested tests on the edge
   * p1 -> p2. `xinters` is recomputed only for a non-horizontal edge and is otherwise
   * carried over from the previous edge, as the loop variable is.
   */
  method EdgeStep(p1: Point, p2: Point, x: real, y: real, xinters: real) returns (toggle: bool, xinters': real)
    ensures toggle == EdgeToggles(p1, p2, x, y)
  {
    toggle, xinters' := false, xinters;
    if y > Min(p1.y, p2.y) {
      if y <= Max(p1.y, p2.y) {
        if x <= Max(p1.x, p2.x) {
          if p1.y != p2.y {
            xinters' := XIntersect(p1, p2, y);
          }
          toggle := p1.x == p2.x || x <= xinters';
        }
      }
    }
  }

  /** The edge index `i % n` of the loop wraps to 0 only for the closing edge. */
  lemma ClosingIndex(i: nat, n: nat)
    requires 1 <= i <= n
    ensures i % n == if i < n then i else 0
  {
  }

  /** Adding one crossing flips the parity; adding none keeps it. */
  lemma ParityStep(c: nat, toggle: bool)
    ensures ((c + if toggle then 1 else 0) % 2 == 1) == (if toggle then c % 2 != 1 else c % 2 == 1)
  {
  }

  /** `point_in_polygon`: the toggling loop over the n closing edges. */
  method PointInPolygon(x: real, y: real, polygon: seq<Point>) returns (inside: bool)
    ensures inside <==> Inside(polygon, x, y)
    ensures |polygon| < 3 ==> !inside
  {
    if |polygon| < 3 {
      return false;
    }
    var n := |polygon|;
    inside := false;
    var xinters := 0.0;
    var p1 := polygon[0];
    var i := 1;
    while i <= n
      invariant 1 <= i <= n + 1
      invariant i <= n ==> p1 == polygon[i - 1]
      invariant inside <==> Crossings(polygon, x, y, i - 1) % 2 == 1
    {
      ClosingIndex(i, n);
      var p2 := polygon[i % n];
      var toggle;
      toggle, xinters := EdgeStep(p1, p2, x, y, xinters);
      ParityStep(Crossings(polygon, x, y, i - 1), toggle);
      if toggle {
        inside := !inside;
      }
      p1 := p2;
      i := i + 1;
    }
  }

  /** Moving an edge and the query point by the same delta does not change the verdict. */
  lemma EdgeTogglesShift(p1: Point, p2: Point, x: real, y: real, dx: real, dy: real)
    ensures EdgeToggles(Shift(p1, dx, dy), Shift(p2, dx, dy), x + dx, y + dy) == EdgeToggles(p1, p2, x, y)
  {
    var q1, q2 := Shift(p1, dx, dy), Shift(p2, dx, dy);
    assert Min(q1.y, q2.y) == Min(p1.y, p2.y) + dy;
    assert Max(q1.y, q2.y) == Max(p1.y, p2.y) + dy;
    assert Max(q1.x, q2.x) == Max(p1.x, p2.x) + dx;
    if p1.y != p2.y {
      XIntersectShift(p1, p2, y, dx, dy);
    }
  }

  lemma XIntersectShift(p1: Point, p2: Point, y: real, dx: real, dy: real)
    requires p1.y != p2.y
    ensures XIntersect(Shift(p1, dx, dy), Shift(p2, dx, dy), y + dy) == XIntersect(p1, p2, y) + dx
  {
    var q1, q2 := Shift(p1, dx, dy), Shift(p2, dx, dy);
    var a, b, c := y - p1.y, p2.x - p1.x, p2.y - p1.y;
    assert y + dy - q1.y == a && q2.x - q1.x == b && q2.y - q1.y == c;
    assert XIntersect(q1, q2, y + dy) == a * b / c + q1.x;
    assert XIntersect(p1, p2, y) == a * b / c + p1.x;
  }

  lemma {:induction false} CrossingsShift(poly: seq<Point>, x: real, y: real, dx: real, dy: real, k: nat)
    requires k <= |poly|
    ensures Crossings(ShiftAll(poly, dx, dy), x + dx, y + dy, k) == Crossings(poly, x, y, k)
  {
    if k > 0 {
      CrossingsShift(poly, x, y, dx, dy, k - 1);
      EdgeTogglesShift(poly[k - 1], poly[k % |poly|], x, y, dx, dy);
    }
  }

  /**
   * Translation invariance: after a polygon moves by (dx, dy), the point
   * (x + dx, y + dy) is inside it exactly when (x, y) was inside before.
   */
  lemma InsideShift(poly: seq<Point>, x: real, y: real, dx: real, dy: real)
    ensures Inside(ShiftAll(poly, dx, dy), x + dx, y + dy) <==> Inside(poly, x, y)
  {
    CrossingsShift(poly, x, y, dx, dy, |poly|);
  }

  /** The square (0,0), (100,0), (100,100), (0,100). */
  function Square(): seq<Point>
  {
    [Point(0.0, 0.0), Point(100.0, 0.0), Point(100.0, 100.0), Point(0.0, 100.0)]
  }

  /** The centre of the square is inside; (150, 50) and (50, 0) on the bottom edge are not. */
  lemma SquareHitTests()
    ensures Inside(Square(), 50.0, 50.0)
    ensures !Inside(Square(), 150.0, 50.0)
    ensures !Inside(Square(), 50.0, 0.0)
  {
    var s := Square();
    assert EdgeToggles(s[1], s[2], 50.0, 50.0);
    assert !EdgeToggles(s[3], s[0], 50.0, 50.0);
    assert Crossings(s, 50.0, 50.0, 4) == 1;
    assert Crossings(s, 150.0, 50.0, 4) == 0;
    assert Crossings(s, 50.0, 0.0, 4) == 0;
  }

  /** Fewer than three vertices never contain a point. */
  lemma DegenerateNeverInside(poly: seq<Point>, x: real, y: real)
    requires |poly| < 3
    ensures !Inside(poly, x, y)
  {
  }
}
