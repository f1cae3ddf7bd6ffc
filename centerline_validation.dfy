/** The centre-line validation script: entities on five target layers are
    collected when some vertex lies in the x-window [2500, 2700]; boundary
    lines (layer 8-4) are kept when horizontal or vertical and within 1.5 of
    a wall-centre dot (layer 8-F); door lines (layer 8-1) are kept when
    horizontal or vertical and connected to a kept boundary. */
module CenterlineValidation {
  import opened Common
  import opened Segments

  /** A drawing entity as the script sees it. `layer` is `None` when the entity
      has no layer attribute; `points` are the coordinates its type yields (a
      line's start and end, a polyline's vertices, a point's location, a
      text's insertion point); `isClosed` is `False` when the entity has no
      such attribute; `text` is `None` when it has no text attribute. */
  datatype SceneEntity = SceneEntity(
    layer: Option<string>,
    dxftype: string,
    points: seq<Point>,
    isClosed: bool,
    text: Option<string>)

  /** The record kept for a boundary, door or pole entity. */
  datatype LineRecord = LineRecord(coordinates: seq<Point>, entityType: string, isClosed: bool)

  /** The record kept for a labelling entity. */
  datatype LabelRecord = LabelRecord(coordinates: seq<Point>, entityType: string, text: string)

  /** Everything the collection pass gathers. */
  datatype Collected = Collected(
    dots: seq<Point>,
    boundaries: seq<LineRecord>,
    doors: seq<LineRecord>,
    labels: seq<LabelRecord>,
    poles: seq<LineRecord>)

  const DoorLayer := "8-1"
  const LabelLayer := "8-2"
  const PoleLayer := "8-3"
  const BoundaryLayer := "8-4"
  const CentreLayer := "8-F"

  /** One of the five layers the script looks at. */
  predicate IsTargetLayer(layer: string) {
    layer == DoorLayer || layer == LabelLayer || layer == PoleLayer || layer == BoundaryLayer || layer == CentreLayer
  }

  const XMin: real := 2500.0
  const XMax: real := 2700.0

  const WallDetectionDistance: real := 1.5
  const OrientationTolerance: real := 2.0
  const DoorTolerance: real := 3.0

  // ---------------------------------------------------------------------------
  // Step 1: collection
  // ---------------------------------------------------------------------------

  /** The entity types whose coordinates the script reads. */
  predicate HasCoordinates(dxftype: string) {
    || dxftype == "LINE" || dxftype == "LWPOLYLINE" || dxftype == "POLYLINE"
    || dxftype == "POINT" || dxftype == "TEXT" || dxftype == "MTEXT"
  }

  /** The coordinates of an entity of a recognised type; none for any other. */
  function Coords(e: SceneEntity): (r: seq<Point>)
    ensures HasCoordinates(e.dxftype) ==> r == e.points
    ensures !HasCoordinates(e.dxftype) ==> r == []
  {
    if HasCoordinates(e.dxftype) then e.points else []
  }

  predicate InWindow(p: Point) {
    XMin <= p.x <= XMax
  }

  /** The entity is on `layer`, has coordinates, and one of them is in the
      x-window. */
  predicate KeptOn(e: SceneEntity, layer: string) {
    e.layer == Some(layer) && Coords(e) != [] && exists p :: p in Coords(e) && InWindow(p)
  }

  function LineOf(e: SceneEntity): LineRecord {
    LineRecord(Coords(e), e.dxftype, e.isClosed)
  }

  function LabelOf(e: SceneEntity): LabelRecord {
    LabelRecord(Coords(e), e.dxftype, e.text.GetOr(""))
  }

  /** The records of the entities kept on `layer`, in entity order. */
  function Selected(es: seq<SceneEntity>, layer: string): (r: seq<LineRecord>)
    ensures |r| <= |es|
  {
    if es == [] then []
    else
      var e := es[|es| - 1];
      Selected(es[..|es| - 1], layer) + (if KeptOn(e, layer) then [LineOf(e)] else [])
  }

  /** Every vertex of every kept centre entity, in order. */
  function Dots(es: seq<SceneEntity>): seq<Point> {
    if es == [] then []
    else
      var e := es[|es| - 1];
      Dots(es[..|es| - 1]) + (if KeptOn(e, CentreLayer) then Coords(e) else [])
  }

  function Labels(es: seq<SceneEntity>): (r: seq<LabelRecord>)
    ensures |r| <= |es|
  {
    if es == [] then []
    else
      var e := es[|es| - 1];
      Labels(es[..|es| - 1]) + (if KeptOn(e, LabelLayer) then [LabelOf(e)] else [])
  }

  function Collect(es: seq<SceneEntity>): Collected {
    Collected(Dots(es), Selected(es, BoundaryLayer), Selected(es, DoorLayer), Labels(es), Selected(es, PoleLayer))
  }

  /** The collection loop of the script. */
  method CollectTargets(es: seq<SceneEntity>) returns (c: Collected)
    ensures c == Collect(es)
  {
    var dots: seq<Point> := [];
    var boundaries: seq<LineRecord> := [];
    var doors: seq<LineRecord> := [];
    var labels: seq<LabelRecord> := [];
    var poles: seq<LineRecord> := [];
    for k := 0 to |es|
      invariant Collected(dots, boundaries, doors, labels, poles) == Collect(es[..k])
    {
      var e := es[k];
      assert es[..k + 1][..k] == es[..k];
      if e.layer.None? || !IsTargetLayer(e.layer.value) {
        continue;
      }
      var layer := e.layer.value;
      var coords := Coords(e);
      if coords == [] {
        continue;
      }
      var inRange := exists p :: p in coords && InWindow(p);
      if !inRange {
        continue;
      }
      if layer == CentreLayer {
        for j := 0 to |coords|
          invariant dots == Dots(es[..k]) + coords[..j]
        {
          dots := dots + [coords[j]];
          assert coords[..j + 1] == coords[..j] + [coords[j]];
        }
        assert coords[..|coords|] == coords;
      } else if layer == BoundaryLayer {
        boundaries := boundaries + [LineRecord(coords, e.dxftype, e.isClosed)];
      } else if layer == DoorLayer {
        doors := doors + [LineRecord(coords, e.dxftype, e.isClosed)];
      } else if layer == LabelLayer {
        labels := labels + [LabelRecord(coords, e.dxftype, e.text.GetOr(""))];
      } else if layer == PoleLayer {
        poles := poles + [LineRecord(coords, e.dxftype, e.isClosed)];
      }
    }
    assert es[..|es|] == es;
    c := Collected(dots, boundaries, doors, labels, poles);
  }

  /** A record is selected for a layer exactly when some entity is kept on
      that layer and yields it. */
  lemma {:induction false} SelectedMembership(es: seq<SceneEntity>, layer: string, r: LineRecord)
    ensures r in Selected(es, layer) <==> exists e :: e in es && KeptOn(e, layer) && r == LineOf(e)
  {
    if es != [] {
      var prefix := es[..|es| - 1];
      SelectedMembership(prefix, layer, r);
      assert es == prefix + [es[|es| - 1]];
      if exists e :: e in es && KeptOn(e, layer) && r == LineOf(e) {
        var e :| e in es && KeptOn(e, layer) && r == LineOf(e);
        if e != es[|es| - 1] {
          assert e in prefix;
        }
      }
    }
  }

  /** A label is collected exactly when some entity kept on the label layer
      yields it. */
  lemma {:induction false} LabelsMembership(es: seq<SceneEntity>, l: LabelRecord)
    ensures l in Labels(es) <==> exists e :: e in es && KeptOn(e, LabelLayer) && l == LabelOf(e)
  {
    if es != [] {
      var prefix := es[..|es| - 1];
      LabelsMembership(prefix, l);
      assert es == prefix + [es[|es| - 1]];
      if exists e :: e in es && KeptOn(e, LabelLayer) && l == LabelOf(e) {
        var e :| e in es && KeptOn(e, LabelLayer) && l == LabelOf(e);
        if e != es[|es| - 1] {
          assert e in prefix;
        }
      }
    }
  }

  /** The centre dots are exactly the vertices of the kept centre entities. */
  lemma {:induction false} DotsMembership(es: seq<SceneEntity>, p: Point)
    ensures p in Dots(es) <==> exists e :: e in es && KeptOn(e, CentreLayer) && p in Coords(e)
  {
    if es != [] {
      var prefix := es[..|es| - 1];
      DotsMembership(prefix, p);
      assert es == prefix + [es[|es| - 1]];
      if exists e :: e in es && KeptOn(e, CentreLayer) && p in Coords(e) {
        var e :| e in es && KeptOn(e, CentreLayer) && p in Coords(e);
        if e != es[|es| - 1] {
          assert e in prefix;
        }
      }
    }
  }

  // ---------------------------------------------------------------------------
  // Step 2: boundary lines near a centre dot
  // ---------------------------------------------------------------------------

  /** `min_dist` after the first `n` segments: the least squared distance from
      `dot` to segments 0 .. n-1 (consecutive vertices, no closing edge). */
  function MinSegmentDistSq(dot: Point, coords: seq<Point>, n: nat): Extended
    requires n < |coords|
  {
    if n == 0 then Infinity
    else MinSegmentDistSq(dot, coords, n - 1).Min(Finite(SegmentDistSq(dot, coords[n - 1], coords[n])))
  }

  /** `min_dist <= bound`, `inf` never being. */
  predicate AtMost(d: Extended, bound: real) {
    d.Finite? && HypotLe(d.v, bound)
  }

  /** The dot is within 1.5 of segment `i` of the polyline. */
  predicate NearSegment(dot: Point, coords: seq<Point>, i: int)
    requires 0 <= i < |coords| - 1
  {
    HypotLe(SegmentDistSq(dot, coords[i], coords[i + 1]), WallDetectionDistance)
  }

  /** The dot is within 1.5 of some segment of the polyline. */
  predicate NearLine(dot: Point, coords: seq<Point>) {
    exists i :: 0 <= i < |coords| - 1 && NearSegment(dot, coords, i)
  }

  /** Taking the minimum with a new distance is within the bound exactly when
      the old minimum or the new distance is. */
  lemma MinAtMost(m: Extended, d: real, bound: real)
    ensures AtMost(m.Min(Finite(d)), bound) <==> AtMost(m, bound) || HypotLe(d, bound)
  {}

  /** The running minimum is within the bound exactly when one of the
      segments seen so far is. */
  lemma {:induction false} MinSegmentDistSqAtMost(dot: Point, coords: seq<Point>, n: nat)
    requires n < |coords|
    ensures AtMost(MinSegmentDistSq(dot, coords, n), WallDetectionDistance) <==>
      exists i :: 0 <= i < n && NearSegment(dot, coords, i)
  {
    if n > 0 {
      MinSegmentDistSqAtMost(dot, coords, n - 1);
      MinAtMost(MinSegmentDistSq(dot, coords, n - 1), SegmentDistSq(dot, coords[n - 1], coords[n]), WallDetectionDistance);
      assert NearSegment(dot, coords, n - 1) == HypotLe(SegmentDistSq(dot, coords[n - 1], coords[n]), WallDetectionDistance);
    }
  }

  /** A boundary line is validated: horizontal or vertical within 2.0, and
      some centre dot is within 1.5 of one of its segments. */
  predicate BoundaryValid(coords: seq<Point>, dots: seq<Point>) {
    IsHorizontalOrVertical(coords, OrientationTolerance) && exists d :: d in dots && NearLine(d, coords)
  }

  function ValidatedBoundaries(lines: seq<LineRecord>, dots: seq<Point>): (r: seq<LineRecord>)
    ensures forall l :: l in r ==> |l.coordinates| >= 2
  {
    if lines == [] then []
    else
      var l := lines[|lines| - 1];
      ValidatedBoundaries(lines[..|lines| - 1], dots) + (if BoundaryValid(l.coordinates, dots) then [l] else [])
  }

  /** The running minimum of the script: the squared distance from the dot to
      the nearest segment of the polyline. */
  method MinDistanceToSegments(dot: Point, coords: seq<Point>) returns (minDist: Extended)
    requires |coords| >= 2
    ensures minDist == MinSegmentDistSq(dot, coords, |coords| - 1)
    ensures AtMost(minDist, WallDetectionDistance) <==> NearLine(dot, coords)
  {
    minDist := Infinity;
    for i := 0 to |coords| - 1
      invariant minDist == MinSegmentDistSq(dot, coords, i)
    {
      var dist := SegmentDistSq(dot, coords[i], coords[i + 1]);
      minDist := minDist.Min(Finite(dist));
    }
    MinSegmentDistSqAtMost(dot, coords, |coords| - 1);
  }

  /** Whether some dot is near the polyline, computed as the script does,
      stopping at the first dot close enough. */
  method NearSomeDot(coords: seq<Point>, dots: seq<Point>) returns (near: bool)
    ensures near <==> exists d :: d in dots && NearLine(d, coords)
  {
    near := false;
    for j := 0 to |dots|
      invariant forall jj :: 0 <= jj < j ==> !NearLine(dots[jj], coords)
    {
      if |coords| >= 2 {
        var minDist := MinDistanceToSegments(dots[j], coords);
        if AtMost(minDist, WallDetectionDistance) {
          near := true;
          return;
        }
      }
    }
  }

  /** Step 2 of the script. */
  method ValidateBoundaries(lines: seq<LineRecord>, dots: seq<Point>) returns (validated: seq<LineRecord>)
    ensures validated == ValidatedBoundaries(lines, dots)
  {
    validated := [];
    for k := 0 to |lines|
      invariant validated == ValidatedBoundaries(lines[..k], dots)
    {
      assert lines[..k + 1][..k] == lines[..k];
      var wallLine := lines[k];
      var coords := wallLine.coordinates;
      if !IsHorizontalOrVertical(coords, OrientationTolerance) {
        continue;
      }
      var lineNearWallCenter := NearSomeDot(coords, dots);
      if lineNearWallCenter {
        validated := validated + [wallLine];
      }
    }
    assert lines[..|lines|] == lines;
  }

  /** The validated boundaries are the boundaries that pass, in their order. */
  lemma {:induction false} ValidatedBoundariesMembership(lines: seq<LineRecord>, dots: seq<Point>, l: LineRecord)
    ensures l in ValidatedBoundaries(lines, dots) <==> l in lines && BoundaryValid(l.coordinates, dots)
  {
    if lines != [] {
      var prefix := lines[..|lines| - 1];
      ValidatedBoundariesMembership(prefix, dots, l);
      assert lines == prefix + [lines[|lines| - 1]];
    }
  }

  /** Without centre dots no boundary is validated. */
  lemma {:induction false} NoDotsNoBoundaries(lines: seq<LineRecord>)
    ensures ValidatedBoundaries(lines, []) == []
  {
    if lines != [] {
      NoDotsNoBoundaries(lines[..|lines| - 1]);
    }
  }

  // ---------------------------------------------------------------------------
  // Step 3: door lines connected to a validated boundary
  // ---------------------------------------------------------------------------

  /** A door line is validated: horizontal or vertical within 2.0, and its
      ends within 3.0 of an end of some validated boundary. */
  predicate DoorValid(coords: seq<Point>, boundaries: seq<LineRecord>)
    requires forall w :: w in boundaries ==> |w.coordinates| >= 1
  {
    IsHorizontalOrVertical(coords, OrientationTolerance) &&
    exists w :: w in boundaries && SegmentsConnected(coords, w.coordinates, DoorTolerance)
  }

  function ValidatedDoors(doors: seq<LineRecord>, boundaries: seq<LineRecord>): (r: seq<LineRecord>)
    requires forall w :: w in boundaries ==> |w.coordinates| >= 1
    ensures |r| <= |doors|
  {
    if doors == [] then []
    else
      var d := doors[|doors| - 1];
      ValidatedDoors(doors[..|doors| - 1], boundaries) + (if DoorValid(d.coordinates, boundaries) then [d] else [])
  }

  /** Step 3 of the script. */
  method ValidateDoors(doors: seq<LineRecord>, boundaries: seq<LineRecord>) returns (validated: seq<LineRecord>)
    requires forall w :: w in boundaries ==> |w.coordinates| >= 1
    ensures validated == ValidatedDoors(doors, boundaries)
  {
    validated := [];
    for k := 0 to |doors|
      invariant validated == ValidatedDoors(doors[..k], boundaries)
    {
      assert doors[..k + 1][..k] == doors[..k];
      var doorLine := doors[k];
      var coords := doorLine.coordinates;
      if !IsHorizontalOrVertical(coords, OrientationTolerance) {
        continue;
      }
      var connectedToWall := false;
      for j := 0 to |boundaries|
        invariant !connectedToWall
        invariant forall jj :: 0 <= jj < j ==> !SegmentsConnected(coords, boundaries[jj].coordinates, DoorTolerance)
      {
        if SegmentsConnected(coords, boundaries[j].coordinates, DoorTolerance) {
          connectedToWall := true;
          break;
        }
      }
      if connectedToWall {
        validated := validated + [doorLine];
      }
    }
    assert doors[..|doors|] == doors;
  }

  /** The validated doors are the doors that pass, in their order. */
  lemma {:induction false} ValidatedDoorsMembership(doors: seq<LineRecord>, boundaries: seq<LineRecord>, d: LineRecord)
    requires forall w :: w in boundaries ==> |w.coordinates| >= 1
    ensures d in ValidatedDoors(doors, boundaries) <==> d in doors && DoorValid(d.coordinates, boundaries)
  {
    if doors != [] {
      var prefix := doors[..|doors| - 1];
      ValidatedDoorsMembership(prefix, boundaries, d);
      assert doors == prefix + [doors[|doors| - 1]];
    }
  }

  /** With no validated boundary, no door is validated. */
  lemma {:induction false} NoBoundariesNoDoors(doors: seq<LineRecord>)
    ensures ValidatedDoors(doors, []) == []
  {
    if doors != [] {
      NoBoundariesNoDoors(doors[..|doors| - 1]);
    }
  }

  // ---------------------------------------------------------------------------
  // The three steps together
  // ---------------------------------------------------------------------------

  /** Steps 1 to 3 of the script on one drawing. */
  method ValidateScene(es: seq<SceneEntity>) returns (c: Collected, boundaries: seq<LineRecord>, doors: seq<LineRecord>)
    ensures c == Collect(es)
    ensures boundaries == ValidatedBoundaries(c.boundaries, c.dots)
    ensures doors == ValidatedDoors(c.doors, boundaries)
  {
    c := CollectTargets(es);
    boundaries := ValidateBoundaries(c.boundaries, c.dots);
    doors := ValidateDoors(c.doors, boundaries);
  }

  /** Every validated door traces back to a door entity of the drawing and to
      a boundary entity, itself near a centre dot, that it touches. */
  lemma DoorProvenance(es: seq<SceneEntity>, d: LineRecord)
    requires
      var c := Collect(es);
      d in ValidatedDoors(c.doors, ValidatedBoundaries(c.boundaries, c.dots))
    ensures exists e :: e in es && KeptOn(e, DoorLayer) && d == LineOf(e)
    ensures exists e :: (e in es && KeptOn(e, BoundaryLayer) &&
      BoundaryValid(LineOf(e).coordinates, Dots(es)) &&
      SegmentsConnected(d.coordinates, LineOf(e).coordinates, DoorTolerance))
  {
    var c := Collect(es);
    var vb := ValidatedBoundaries(c.boundaries, c.dots);
    ValidatedDoorsMembership(c.doors, vb, d);
    SelectedMembership(es, DoorLayer, d);
    var w :| w in vb && SegmentsConnected(d.coordinates, w.coordinates, DoorTolerance);
    ValidatedBoundariesMembership(c.boundaries, c.dots, w);
    SelectedMembership(es, BoundaryLayer, w);
  }
}
