/** The planar-geometry library the candidate extractor and the classifier call
    (Shapely). Geometries carry their kind, because the source branches on
    `isinstance` and `is_empty`; every computation on them is a field of `Ops`,
    uninterpreted except for the few facts `Sound` states. */
module Planar {
  import opened Common

  datatype Geom =
    | LineString(coords: seq<Point>)
    | Polygon(shell: seq<Point>, holes: seq<seq<Point>>)
    | MultiLineString(parts: seq<seq<Point>>)
      /** Any other geometry (points, multi-polygons, collections). */
    | OtherGeometry(empty: bool)

  /** Shapely's `is_empty`. */
  predicate IsEmpty(g: Geom) {
    match g
    case LineString(cs) => cs == []
    case Polygon(shell, _) => shell == []
    case MultiLineString(parts) => parts == []
    case OtherGeometry(e) => e
  }

  /** `LineString.is_closed`: first and last coordinates coincide. */
  predicate IsClosed(coords: seq<Point>) {
    |coords| >= 2 && coords[0] == coords[|coords| - 1]
  }

  /** The operations of the library that the core calls. */
  datatype Ops = Ops(
    isValid: Geom -> bool,
    area: Geom -> real,
    length: Geom -> real,
    buffer0: Geom -> Geom,
    simplify: (Geom, real) -> Geom,
    unaryUnion: seq<Geom> -> Geom,
    snap: (Geom, Geom, real) -> Geom,
    polygonize: Geom -> seq<Geom>,
    minimumRotatedRectangle: Geom -> Geom,
    contains: (Geom, Point) -> bool,
    distance: (Geom, Point) -> real,
    sqrt: real -> real)

  /** The facts about the library the model relies on: areas and lengths are not
      negative, `sqrt` is the square root, and a non-empty rectangle returned by
      `minimum_rotated_rectangle` has an exterior ring of at least three points. */
  ghost predicate Sound(ops: Ops) {
    && (forall g :: ops.area(g) >= 0.0)
    && (forall g :: ops.length(g) >= 0.0)
    && IsSqrt(ops.sqrt)
    && (forall g :: RingOfAtLeastThree(ops.minimumRotatedRectangle(g)))
  }

  /** A non-empty polygon has an exterior ring of at least three points. */
  predicate RingOfAtLeastThree(g: Geom) {
    g.Polygon? && !IsEmpty(g) ==> |g.shell| >= 3
  }

  /** `Point(a).distance(Point(b))`. */
  function PointDistance(ops: Ops, a: Point, b: Point): real {
    ops.sqrt(DistSq(a, b))
  }
}
