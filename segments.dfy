/** The segment primitives of the centre-line validation script: the
    horizontal-or-vertical test, the point-to-segment distance (also used, in
    an identical copy, by the legend-association script) and the endpoint
    connectivity test. Distances are carried squared; `Common.HypotCompare`
    and `Common.SqrtMonotone` show that every comparison the scripts make on
    `math.hypot` values gives the same answer on the squares. */
module Segments {
  import opened Common

  /** Below this squared length a segment is measured as the single point at
      its start (the source's `1e-12`). */
  const Epsilon: real := 0.000000000001

  function Abs(x: real): (r: real)
    ensures r >= 0.0 && (r == x || r == -x)
  {
    if x < 0.0 then -x else x
  }

  // ---------------------------------------------------------------------------
  // is_horizontal_or_vertical
  // ---------------------------------------------------------------------------

  /** A polyline counts as horizontal or vertical when its first and last
      vertices differ by at most `tol` in y, or else in x. */
  predicate IsHorizontalOrVertical(coords: seq<Point>, tol: real) {
    |coords| >= 2 &&
    var first, last := coords[0], coords[|coords| - 1];
    Abs(last.y - first.y) <= tol || Abs(last.x - first.x) <= tol
  }

  /** Only the end vertices are looked at: interior vertices never change the
      answer. */
  lemma HorizontalOrVerticalEndpointsOnly(c1: seq<Point>, c2: seq<Point>, tol: real)
    requires |c1| >= 2 && |c2| >= 2
    requires c1[0] == c2[0] && c1[|c1| - 1] == c2[|c2| - 1]
    ensures IsHorizontalOrVertical(c1, tol) == IsHorizontalOrVertical(c2, tol)
  {}

  /** Walking the polyline backwards gives the same answer. */
  lemma HorizontalOrVerticalReversed(coords: seq<Point>, tol: real)
    requires |coords| >= 2
    ensures IsHorizontalOrVertical(coords, tol) ==
      IsHorizontalOrVertical([coords[|coords| - 1]] + coords[1..|coords| - 1] + [coords[0]], tol)
  {
    var r := [coords[|coords| - 1]] + coords[1..|coords| - 1] + [coords[0]];
    assert r[0] == coords[|coords| - 1] && r[|r| - 1] == coords[0];
  }

  /** A polyline whose ends are within `tol` of each other passes, whatever its
      direction: the test does not reject near-zero-length segments. */
  lemma ShortPolylineIsHorizontalOrVertical(coords: seq<Point>, tol: real)
    requires |coords| >= 2 && HypotLe(DistSq(coords[0], coords[|coords| - 1]), tol)
    ensures IsHorizontalOrVertical(coords, tol)
  {
    var first, last := coords[0], coords[|coords| - 1];
    var dx, dy := first.x - last.x, first.y - last.y;
    MulNonNeg(dx, dx);
    assert Mul(Abs(dy), Abs(dy)) == Mul(dy, dy);
    if Abs(dy) > tol {
      MulStrictMonotone(tol, Abs(dy), tol, Abs(dy));
    }
  }

  /** A diagonal is rejected once both offsets exceed the tolerance. */
  lemma DiagonalIsNotHorizontalOrVertical()
    ensures !IsHorizontalOrVertical([Point(0.0, 0.0), Point(10.0, 10.0)], 2.0)
    ensures IsHorizontalOrVertical([Point(0.0, 0.0), Point(5.0, 5.0), Point(10.0, 0.0)], 0.0)
  {}

  // ---------------------------------------------------------------------------
  // distance_point_to_line_segment
  // ---------------------------------------------------------------------------

  /** `max(0, min(1, x))`. */
  function Clamp01(x: real): (r: real)
    ensures 0.0 <= r <= 1.0
    ensures 0.0 <= x <= 1.0 ==> r == x
  {
    var m := if x < 1.0 then x else 1.0;
    if m > 0.0 then m else 0.0
  }

  /** The point `a + s (b - a)`. */
  function Along(a: Point, b: Point, s: real): Point {
    Point(a.x + Mul(s, b.x - a.x), a.y + Mul(s, b.y - a.y))
  }

  /** Squared length of the segment from `a` to `b`. */
  function SegmentLengthSq(a: Point, b: Point): real {
    Mul(b.x - a.x, b.x - a.x) + Mul(b.y - a.y, b.y - a.y)
  }

  /** The dot product of `p - a` with `b - a`. */
  function Projection(p: Point, a: Point, b: Point): real {
    Mul(p.x - a.x, b.x - a.x) + Mul(p.y - a.y, b.y - a.y)
  }

  /** The square of `distance_point_to_line_segment(p, a, b)`: the distance
      from `p` to the segment's point at the clamped projection parameter, or
      to `a` when the segment is shorter than the epsilon. */
  function SegmentDistSq(p: Point, a: Point, b: Point): (r: real)
    ensures r >= 0.0
    ensures SegmentLengthSq(a, b) < Epsilon ==> r == DistSq(p, a)
  {
    var magSq := SegmentLengthSq(a, b);
    if magSq < Epsilon then
      DistSqProperties(p, a);
      DistSq(p, a)
    else
      var t := Clamp01(Projection(p, a, b) / magSq);
      DistSqProperties(p, Along(a, b, t));
      DistSq(p, Along(a, b, t))
  }

  /** `-2 s D + s^2 M`: the squared distance from `p` to `Along(a, b, s)` less
      the squared distance to `a`, with `D` the projection and `M` the squared
      length. */
  function Quad(d: real, m: real, s: real): real {
    -2.0 * Mul(s, d) + Mul(Mul(s, s), m)
  }

  lemma AlongExpansion(p: Point, a: Point, b: Point, s: real)
    ensures DistSq(p, Along(a, b, s)) ==
      DistSq(p, a) + Quad(Projection(p, a, b), SegmentLengthSq(a, b), s)
  {
    var wx, wy, vx, vy := p.x - a.x, p.y - a.y, b.x - a.x, b.y - a.y;
    assert p.x - Along(a, b, s).x == wx - Mul(s, vx);
    assert p.y - Along(a, b, s).y == wy - Mul(s, vy);
    assert Mul(wx - Mul(s, vx), wx - Mul(s, vx)) + Mul(wy - Mul(s, vy), wy - Mul(s, vy))
      == (Mul(wx, wx) + Mul(wy, wy)) - 2.0 * Mul(s, Mul(wx, vx) + Mul(wy, vy)) + Mul(Mul(s, s), Mul(vx, vx) + Mul(vy, vy));
  }

  lemma QuadAtZeroIsLeast(d: real, m: real, s: real)
    requires m > 0.0 && d <= 0.0 && 0.0 <= s <= 1.0
    ensures Quad(d, m, 0.0) <= Quad(d, m, s)
  {
    MulNonNeg(s, -d);
    MulNonNeg(s, s);
    MulNonNeg(Mul(s, s), m);
  }

  lemma QuadAtOneIsLeast(d: real, m: real, s: real)
    requires m > 0.0 && d >= m && 0.0 <= s <= 1.0
    ensures Quad(d, m, 1.0) <= Quad(d, m, s)
  {
    MulMonotone(m, m, s, 1.0);
    assert Mul(m, 1.0 + s) == m + Mul(m, s);
    var g := 2.0 * d - Mul(m, 1.0 + s);
    MulNonNeg(1.0 - s, g);
    assert Quad(d, m, s) - Quad(d, m, 1.0) == Mul(1.0 - s, g);
  }

  lemma QuadAtVertexIsLeast(d: real, m: real, s: real, t: real)
    requires m > 0.0 && d == Mul(t, m)
    ensures Quad(d, m, t) <= Quad(d, m, s)
  {
    MulNonNeg(s - t, s - t);
    MulNonNeg(m, Mul(s - t, s - t));
    assert Quad(d, m, s) - Quad(d, m, t) == Mul(m, Mul(s - t, s - t));
  }

  lemma DivTimes(d: real, m: real)
    requires m > 0.0
    ensures Mul(d / m, m) == d
  {}

  /** The clamped parameter the source computes is the closest point of the
      segment. */
  lemma ClampedParameterIsClosest(p: Point, a: Point, b: Point, s: real)
    requires SegmentLengthSq(a, b) >= Epsilon && 0.0 <= s <= 1.0
    ensures SegmentDistSq(p, a, b) <= DistSq(p, Along(a, b, s))
  {
    var m, d := SegmentLengthSq(a, b), Projection(p, a, b);
    var q := d / m;
    var t := Clamp01(q);
    DivTimes(d, m);
    AlongExpansion(p, a, b, s);
    AlongExpansion(p, a, b, t);
    if q < 0.0 {
      MulNonNeg(-q, m);
      QuadAtZeroIsLeast(d, m, s);
    } else if q > 1.0 {
      MulMonotone(1.0, q, m, m);
      QuadAtOneIsLeast(d, m, s);
    } else {
      QuadAtVertexIsLeast(d, m, s, q);
    }
  }

  /** For a segment longer than the epsilon, the value is the least squared
      distance from `p` to any point of the segment, and some point of the
      segment is at exactly that distance. */
  lemma SegmentDistSqIsLeast(p: Point, a: Point, b: Point)
    requires SegmentLengthSq(a, b) >= Epsilon
    ensures forall s :: 0.0 <= s <= 1.0 ==> SegmentDistSq(p, a, b) <= DistSq(p, Along(a, b, s))
    ensures exists s :: 0.0 <= s <= 1.0 && SegmentDistSq(p, a, b) == DistSq(p, Along(a, b, s))
  {
    forall s | 0.0 <= s <= 1.0
      ensures SegmentDistSq(p, a, b) <= DistSq(p, Along(a, b, s))
    {
      ClampedParameterIsClosest(p, a, b, s);
    }
    var t := Clamp01(Projection(p, a, b) / SegmentLengthSq(a, b));
    assert SegmentDistSq(p, a, b) == DistSq(p, Along(a, b, t));
  }

  /** No farther than either endpoint (for a segment longer than the epsilon;
      a shorter one is measured from its start only). */
  lemma SegmentDistSqAtMostEndpoints(p: Point, a: Point, b: Point)
    ensures SegmentDistSq(p, a, b) <= DistSq(p, a)
    ensures SegmentLengthSq(a, b) >= Epsilon ==> SegmentDistSq(p, a, b) <= DistSq(p, b)
  {
    if SegmentLengthSq(a, b) >= Epsilon {
      SegmentDistSqIsLeast(p, a, b);
      assert Along(a, b, 0.0) == a;
      assert Along(a, b, 1.0) == b;
    }
  }

  /** A point of the segment is at distance zero from it. */
  lemma SegmentDistSqOnSegment(a: Point, b: Point, s: real)
    requires 0.0 <= s <= 1.0
    requires SegmentLengthSq(a, b) >= Epsilon || s == 0.0
    ensures SegmentDistSq(Along(a, b, s), a, b) == 0.0
  {
    var p := Along(a, b, s);
    DistSqProperties(p, p);
    if SegmentLengthSq(a, b) >= Epsilon {
      SegmentDistSqIsLeast(p, a, b);
    } else {
      assert p == a;
    }
  }

  /** Measuring against the segment from `b` to `a` gives the same value when
      the segment is longer than the epsilon. A shorter one is measured from
      its first argument, so there the order matters. */
  lemma SegmentDistSqSymmetric(p: Point, a: Point, b: Point)
    requires SegmentLengthSq(a, b) >= Epsilon
    ensures SegmentDistSq(p, a, b) == SegmentDistSq(p, b, a)
  {
    assert SegmentLengthSq(b, a) == SegmentLengthSq(a, b) by {
      assert Mul(a.x - b.x, a.x - b.x) == Mul(b.x - a.x, b.x - a.x);
      assert Mul(a.y - b.y, a.y - b.y) == Mul(b.y - a.y, b.y - a.y);
    }
    SegmentDistSqIsLeast(p, a, b);
    SegmentDistSqIsLeast(p, b, a);
    var s :| 0.0 <= s <= 1.0 && SegmentDistSq(p, a, b) == DistSq(p, Along(a, b, s));
    var u :| 0.0 <= u <= 1.0 && SegmentDistSq(p, b, a) == DistSq(p, Along(b, a, u));
    AlongReversed(a, b, s);
    AlongReversed(b, a, u);
    assert SegmentDistSq(p, b, a) <= DistSq(p, Along(b, a, 1.0 - s));
    assert SegmentDistSq(p, a, b) <= DistSq(p, Along(a, b, 1.0 - u));
  }

  lemma AlongReversed(a: Point, b: Point, s: real)
    ensures Along(b, a, 1.0 - s) == Along(a, b, s)
  {
    assert b.x + Mul(1.0 - s, a.x - b.x) == a.x + Mul(s, b.x - a.x);
    assert b.y + Mul(1.0 - s, a.y - b.y) == a.y + Mul(s, b.y - a.y);
  }

  // ---------------------------------------------------------------------------
  // line_segments_are_connected
  // ---------------------------------------------------------------------------

  /** The first and last vertices, in that order. */
  function Ends(c: seq<Point>): (r: seq<Point>)
    requires |c| >= 1
    ensures |r| == 2 && r[0] == c[0] && r[1] == c[|c| - 1]
  {
    [c[0], c[|c| - 1]]
  }

  /** Some end of one polyline is within `tol` (inclusive) of some end of the
      other; the four pairs are tried start-start, start-end, end-start,
      end-end. */
  predicate SegmentsConnected(c1: seq<Point>, c2: seq<Point>, tol: real)
    requires |c1| >= 1 && |c2| >= 1
  {
    exists i, j :: 0 <= i < 2 && 0 <= j < 2 && HypotLe(DistSq(Ends(c1)[i], Ends(c2)[j]), tol)
  }

  /** The test, stated on the source's `math.hypot` values. */
  lemma SegmentsConnectedByHypot(sqrt: real -> real, c1: seq<Point>, c2: seq<Point>, tol: real)
    requires IsSqrt(sqrt) && |c1| >= 1 && |c2| >= 1
    ensures SegmentsConnected(c1, c2, tol) <==>
      exists i, j :: 0 <= i < 2 && 0 <= j < 2 && sqrt(DistSq(Ends(c1)[i], Ends(c2)[j])) <= tol
  {
    forall i, j | 0 <= i < 2 && 0 <= j < 2
      ensures sqrt(DistSq(Ends(c1)[i], Ends(c2)[j])) <= tol <==> HypotLe(DistSq(Ends(c1)[i], Ends(c2)[j]), tol)
    {
      DistSqProperties(Ends(c1)[i], Ends(c2)[j]);
      HypotCompare(sqrt, DistSq(Ends(c1)[i], Ends(c2)[j]), tol);
    }
  }

  /** Connectivity is symmetric. */
  lemma SegmentsConnectedSymmetric(c1: seq<Point>, c2: seq<Point>, tol: real)
    requires |c1| >= 1 && |c2| >= 1
    ensures SegmentsConnected(c1, c2, tol) == SegmentsConnected(c2, c1, tol)
  {
    if SegmentsConnected(c1, c2, tol) {
      var i, j :| 0 <= i < 2 && 0 <= j < 2 && HypotLe(DistSq(Ends(c1)[i], Ends(c2)[j]), tol);
      DistSqProperties(Ends(c1)[i], Ends(c2)[j]);
      assert HypotLe(DistSq(Ends(c2)[j], Ends(c1)[i]), tol);
    }
    if SegmentsConnected(c2, c1, tol) {
      var j, i :| 0 <= j < 2 && 0 <= i < 2 && HypotLe(DistSq(Ends(c2)[j], Ends(c1)[i]), tol);
      DistSqProperties(Ends(c2)[j], Ends(c1)[i]);
      assert HypotLe(DistSq(Ends(c1)[i], Ends(c2)[j]), tol);
    }
  }

  /** Interior vertices play no part. */
  lemma SegmentsConnectedEndsOnly(c1: seq<Point>, c2: seq<Point>, d1: seq<Point>, d2: seq<Point>, tol: real)
    requires |c1| >= 1 && |c2| >= 1 && |d1| >= 1 && |d2| >= 1
    requires Ends(c1) == Ends(d1) && Ends(c2) == Ends(d2)
    ensures SegmentsConnected(c1, c2, tol) == SegmentsConnected(d1, d2, tol)
  {}

  /** Polylines that share an end vertex are connected at any tolerance. */
  lemma SharedEndIsConnected(c1: seq<Point>, c2: seq<Point>, tol: real)
    requires |c1| >= 1 && |c2| >= 1 && 0.0 <= tol
    requires c1[|c1| - 1] == c2[0]
    ensures SegmentsConnected(c1, c2, tol)
  {
    DistSqProperties(c1[|c1| - 1], c2[0]);
    MulNonNeg(tol, tol);
    assert HypotLe(DistSq(Ends(c1)[1], Ends(c2)[0]), tol);
  }

  /** Two segments meeting at (10, 0) are connected at tolerance 2; two
      collinear segments 10 apart are not. */
  lemma ConnectedScenario()
    ensures SegmentsConnected([Point(0.0, 0.0), Point(10.0, 0.0)], [Point(10.0, 0.0), Point(10.0, 5.0)], 2.0)
    ensures !SegmentsConnected([Point(0.0, 0.0), Point(10.0, 0.0)], [Point(20.0, 0.0), Point(30.0, 0.0)], 2.0)
  {
    SharedEndIsConnected([Point(0.0, 0.0), Point(10.0, 0.0)], [Point(10.0, 0.0), Point(10.0, 5.0)], 2.0);
    DisjointScenario();
  }

  lemma DisjointScenario()
    ensures !SegmentsConnected([Point(0.0, 0.0), Point(10.0, 0.0)], [Point(20.0, 0.0), Point(30.0, 0.0)], 2.0)
  {
    var c1, c2 := [Point(0.0, 0.0), Point(10.0, 0.0)], [Point(20.0, 0.0), Point(30.0, 0.0)];
    forall i, j | 0 <= i < 2 && 0 <= j < 2
      ensures !HypotLe(DistSq(Ends(c1)[i], Ends(c2)[j]), 2.0)
    {
      FarApartInX(Ends(c1)[i], Ends(c2)[j]);
    }
  }

  lemma FarApartInX(p: Point, q: Point)
    requires q.x - p.x >= 10.0
    ensures !HypotLe(DistSq(p, q), 2.0)
  {
    var dx := p.x - q.x;
    MulStrictMonotone(2.0, -dx, 2.0, -dx);
    assert Mul(-dx, -dx) == Mul(dx, dx);
    MulNonNeg(p.y - q.y, p.y - q.y);
  }
}
