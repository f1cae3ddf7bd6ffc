/** The candidate extractor: converting drawing entities to geometries, merging
    open lines into polygons, cleaning, thickness estimation, and the assembly of
    wall candidates with their nearby text labels. */
module GeometryUtils {
  import opened Common
  import opened Planar

  /** A geometric entity as a dictionary: each of 'type', 'vertices' and 'layer'
      may be missing. */
  datatype EntityRecord = EntityRecord(etype: Option<string>, vertices: Option<seq<Point>>, layer: Option<string>)

  /** A text entity as a dictionary: 'text' and 'insert' may be missing. */
  datatype TextRecord = TextRecord(text: Option<string>, insert: Option<Point>)

  datatype Candidate = Candidate(geometry: Geom, layerName: string, rawLabel: Option<string>)

  const AreaOverLength: string := "area_over_length"

  predicate IsLineType(t: string) {
    t == "LINE" || t == "POLYLINE" || t == "LWPOLYLINE"
  }

  // ---------------------------------------------------------------------------
  // dxf_entity_to_shapely
  // ---------------------------------------------------------------------------

  /** A POLYLINE or LWPOLYLINE whose vertex list has at least four points and
      ends where it starts: the entities the converter tries as polygons. */
  predicate ClosedPolyline(e: EntityRecord) {
    && e.etype.Some? && (e.etype.value == "POLYLINE" || e.etype.value == "LWPOLYLINE")
    && e.vertices.Some? && |e.vertices.value| >= 4 && IsClosed(e.vertices.value)
  }

  /** The geometry of an entity: nothing for a missing type or vertex list, an
      unsupported type or fewer than two vertices; a polygon for a closed polyline
      of at least four vertices whose polygon (or its `buffer(0)` repair) is
      valid; a line string otherwise. */
  function DxfEntityToShapely(e: EntityRecord, ops: Ops): (r: Option<Geom>)
    ensures r.None? <==>
      e.etype.None? || !IsLineType(e.etype.value) || e.vertices.None? || |e.vertices.value| < 2
    ensures r.Some? && e.etype.value == "LINE" ==> r.value == LineString(e.vertices.value)
    ensures r.Some? && !r.value.Polygon? ==> r.value == LineString(e.vertices.value)
    ensures r.Some? && r.value.Polygon? ==>
      && e.etype.value != "LINE"
      && |e.vertices.value| >= 4
      && IsClosed(e.vertices.value)
      && ops.isValid(r.value)
      && (r.value == Polygon(e.vertices.value, []) || r.value == ops.buffer0(Polygon(e.vertices.value, [])))
    ensures ClosedPolyline(e) && ops.isValid(Polygon(e.vertices.value, [])) ==>
      r == Some(Polygon(e.vertices.value, []))
    ensures ClosedPolyline(e) && !ops.isValid(Polygon(e.vertices.value, [])) ==>
      var repaired := ops.buffer0(Polygon(e.vertices.value, []));
      r == if ops.isValid(repaired) && repaired.Polygon? then Some(repaired) else Some(LineString(e.vertices.value))
  {
    if e.etype.None? || e.etype.value == "" || e.vertices.None? || e.vertices.value == [] then None
    else
      var t, vs := e.etype.value, e.vertices.value;
      if !IsLineType(t) then None
      else if |vs| < 2 then None
      else
        var line := LineString(vs);
        if t == "LINE" then Some(line)
        else if vs[0] == vs[|vs| - 1] && |vs| >= 4 then
          var poly := Polygon(vs, []);
          if ops.isValid(poly) then Some(poly)
          else
            var repaired := ops.buffer0(poly);
            if ops.isValid(repaired) && repaired.Polygon? then Some(repaired) else Some(line)
        else Some(line)
  }

  // ---------------------------------------------------------------------------
  // snap_and_clean
  // ---------------------------------------------------------------------------

  /** `buffer(0)` then a topology-preserving simplification, falling back to the
      simplified original when the buffer is empty and to the buffer when the
      simplification is empty. The result is empty exactly when the input is, or
      when both the buffer and the simplified original are. */
  function SnapAndClean(g: Geom, tol: real, ops: Ops): (r: Geom)
    ensures IsEmpty(r) <==> IsEmpty(g) || (IsEmpty(ops.buffer0(g)) && IsEmpty(ops.simplify(g, tol)))
    ensures IsEmpty(g) ==> r == g
    ensures !IsEmpty(g) && IsEmpty(ops.buffer0(g)) ==> r == ops.simplify(g, tol)
    ensures !IsEmpty(g) && !IsEmpty(ops.buffer0(g)) && !IsEmpty(ops.simplify(ops.buffer0(g), tol)) ==>
      r == ops.simplify(ops.buffer0(g), tol)
    ensures !IsEmpty(g) && !IsEmpty(ops.buffer0(g)) && IsEmpty(ops.simplify(ops.buffer0(g), tol)) ==>
      r == ops.buffer0(g)
  {
    if IsEmpty(g) then g
    else
      var cleaned := ops.buffer0(g);
      if IsEmpty(cleaned) then ops.simplify(g, tol)
      else
        var simplified := ops.simplify(cleaned, tol);
        if IsEmpty(simplified) then cleaned else simplified
  }

  // ---------------------------------------------------------------------------
  // compute_thickness
  // ---------------------------------------------------------------------------

  /** The two adjacent sides of a minimum rotated rectangle. */
  function RectangleSides(mbr: Geom, ops: Ops): (real, real)
    requires mbr.Polygon? && |mbr.shell| >= 3
  {
    (PointDistance(ops, mbr.shell[0], mbr.shell[1]), PointDistance(ops, mbr.shell[1], mbr.shell[2]))
  }

  /** The rectangle is usable when it is a non-empty polygon. */
  predicate UsableRectangle(mbr: Geom) {
    mbr.Polygon? && !IsEmpty(mbr)
  }

  /** Thickness of a wall polygon: nothing for a non-polygon, an invalid or empty
      polygon, a zero perimeter or an unknown method; the shorter of two adjacent
      sides of the minimum rotated rectangle when that rectangle is usable, and
      2 * area / perimeter otherwise. */
  function ComputeThickness(g: Geom, thicknessMethod: string, ops: Ops): (r: Option<real>)
    requires Sound(ops)
    ensures r.None? <==>
      !g.Polygon? || !ops.isValid(g) || IsEmpty(g) || thicknessMethod != AreaOverLength || ops.length(g) == 0.0
    ensures r.Some? ==> r.value >= 0.0
    ensures r.Some? && UsableRectangle(ops.minimumRotatedRectangle(g)) ==>
      var sides := RectangleSides(ops.minimumRotatedRectangle(g), ops);
      r.value <= sides.0 && r.value <= sides.1 && (r.value == sides.0 || r.value == sides.1)
    ensures r.Some? && !UsableRectangle(ops.minimumRotatedRectangle(g)) ==>
      Mul(r.value, ops.length(g)) == 2.0 * ops.area(g)
  {
    if !g.Polygon? || !ops.isValid(g) || IsEmpty(g) then None
    else if thicknessMethod != AreaOverLength then None
    else
      var area, length := ops.area(g), ops.length(g);
      if length == 0.0 then None
      else
        var mbr := ops.minimumRotatedRectangle(g);
        if IsEmpty(mbr) || !mbr.Polygon? then
          if length > 0.0 then
            DivProperties(2.0 * area, length);
            Some(2.0 * area / length)
          else None
        else
          var sides := RectangleSides(mbr, ops);
          assert sides.0 >= 0.0 && sides.1 >= 0.0 by {
            DistSqProperties(mbr.shell[0], mbr.shell[1]);
            DistSqProperties(mbr.shell[1], mbr.shell[2]);
          }
          Some(if sides.1 < sides.0 then sides.1 else sides.0)
  }

  lemma DivProperties(a: real, b: real)
    requires 0.0 <= a && 0.0 < b
    ensures a / b >= 0.0 && Mul(a / b, b) == a
  {}

  /** The axis-aligned `w` by `h` rectangle with a corner at the origin. */
  function AxisRectangle(w: real, h: real): Geom {
    Polygon([Point(0.0, 0.0), Point(w, 0.0), Point(w, h), Point(0.0, h), Point(0.0, 0.0)], [])
  }

  /** The sides of an axis-aligned `w` by `h` rectangle ring, seen through the
      library's square root, are `w` and `h`. */
  lemma AxisRectangleSides(ops: Ops, w: real, h: real)
    requires Sound(ops) && 0.0 <= w && 0.0 <= h
    ensures RectangleSides(AxisRectangle(w, h), ops) == (w, h)
  {
    var r := AxisRectangle(w, h);
    assert DistSq(r.shell[0], r.shell[1]) == Mul(w, w) by {
      assert Mul(0.0 - w, 0.0 - w) == Mul(w, w);
    }
    assert DistSq(r.shell[1], r.shell[2]) == Mul(h, h) by {
      assert Mul(w - w, w - w) == 0.0;
      assert Mul(0.0 - h, 0.0 - h) == Mul(h, h);
    }
    SqrtOfSquare(ops.sqrt, w);
    SqrtOfSquare(ops.sqrt, h);
  }

  /** A valid `w` by `h` rectangle (`h <= w`) that is its own minimum rotated
      rectangle has thickness `h`, its short side. */
  lemma AxisRectangleThickness(g: Geom, ops: Ops, w: real, h: real)
    requires Sound(ops) && 0.0 <= h <= w && g == AxisRectangle(w, h)
    requires ops.isValid(g) && ops.length(g) > 0.0 && ops.minimumRotatedRectangle(g) == g
    ensures ComputeThickness(g, AreaOverLength, ops) == Some(h)
  {
    AxisRectangleSides(ops, w, h);
    assert UsableRectangle(g);
  }

  /** A 10 by 2 wall whose minimum rotated rectangle is itself has thickness 2. */
  lemma TenByTwoWallThickness(g: Geom, ops: Ops)
    requires Sound(ops)
    requires g == AxisRectangle(10.0, 2.0)
    requires ops.isValid(g) && ops.length(g) == 24.0 && ops.minimumRotatedRectangle(g) == g
    ensures ComputeThickness(g, AreaOverLength, ops) == Some(2.0)
  {
    AxisRectangleThickness(g, ops, 10.0, 2.0);
  }

  // ---------------------------------------------------------------------------
  // merge_lines_to_polygons
  // ---------------------------------------------------------------------------

  /** A geometry the extractor accepts as a wall outline: a valid polygon whose
      area exceeds the square of the tolerance. */
  predicate Admissible(g: Geom, tol: real, ops: Ops) {
    g.Polygon? && ops.isValid(g) && ops.area(g) > Mul(tol, tol)
  }

  /** The geometries that get snapped: the parts of the union when it is a
      multi-line, the union itself when it is one line, the input otherwise. */
  function SnapSources(lines: seq<Geom>, union: Geom): seq<Geom> {
    match union
    case MultiLineString(parts) => seq(|parts|, i requires 0 <= i < |parts| => LineString(parts[i]))
    case LineString(_) => [union]
    case _ => lines
  }

  /** The non-empty line strings among the parts of a multi-line. */
  function NonEmptyParts(parts: seq<seq<Point>>): seq<Geom> {
    if parts == [] then []
    else NonEmptyParts(parts[..|parts| - 1]) + (if parts[|parts| - 1] != [] then [LineString(parts[|parts| - 1])] else [])
  }

  /** What one snapped geometry contributes to the snapped lines. */
  function SnapPieces(s: Geom): seq<Geom> {
    match s
    case LineString(cs) => if cs != [] then [s] else []
    case MultiLineString(parts) => NonEmptyParts(parts)
    case _ => []
  }

  function SnappedLines(sources: seq<Geom>, union: Geom, tol: real, ops: Ops): seq<Geom> {
    if sources == [] then []
    else SnappedLines(sources[..|sources| - 1], union, tol, ops) + SnapPieces(ops.snap(sources[|sources| - 1], union, tol))
  }

  /** What one polygonized face contributes: its cleaned form, when both the face
      and the cleaned form are admissible. */
  function KeptFace(face: Geom, tol: real, ops: Ops): seq<Geom> {
    if Admissible(face, tol, ops) then
      var cleaned := SnapAndClean(face, tol, ops);
      if Admissible(cleaned, tol, ops) then [cleaned] else []
    else []
  }

  function KeptPolygons(faces: seq<Geom>, tol: real, ops: Ops): seq<Geom> {
    if faces == [] then []
    else KeptPolygons(faces[..|faces| - 1], tol, ops) + KeptFace(faces[|faces| - 1], tol, ops)
  }

  /** The polygon a single closed line string forms, if Shapely accepts it. */
  function SingleLinePolygon(line: Geom, ops: Ops): seq<Geom> {
    if line.LineString? && IsClosed(line.coords) && |line.coords| >= 4 && ops.isValid(Polygon(line.coords, [])) then
      [Polygon(line.coords, [])]
    else []
  }

  /** The polygons merge_lines_to_polygons returns. */
  function MergedPolygons(lines: seq<Geom>, tol: real, ops: Ops): seq<Geom> {
    if lines == [] then []
    else if |lines| == 1 then SingleLinePolygon(lines[0], ops)
    else
      var union := ops.unaryUnion(lines);
      var snapped := SnappedLines(SnapSources(lines, union), union, tol, ops);
      if snapped == [] then [] else KeptPolygons(ops.polygonize(ops.unaryUnion(snapped)), tol, ops)
  }

  lemma {:induction false} KeptPolygonsAdmissible(faces: seq<Geom>, tol: real, ops: Ops)
    ensures forall p :: p in KeptPolygons(faces, tol, ops) ==> Admissible(p, tol, ops)
    ensures |KeptPolygons(faces, tol, ops)| <= |faces|
  {
    if faces != [] {
      KeptPolygonsAdmissible(faces[..|faces| - 1], tol, ops);
    }
  }

  /** Every merged polygon is a valid polygon; from two or more lines, every one
      is admissible, and a single line yields at most the polygon it closes. */
  lemma MergedPolygonsShape(lines: seq<Geom>, tol: real, ops: Ops)
    ensures forall p :: p in MergedPolygons(lines, tol, ops) ==> p.Polygon? && ops.isValid(p)
    ensures |lines| >= 2 ==> forall p :: p in MergedPolygons(lines, tol, ops) ==> Admissible(p, tol, ops)
    ensures |lines| == 1 ==>
      MergedPolygons(lines, tol, ops) == [] ||
      (lines[0].LineString? && IsClosed(lines[0].coords) && MergedPolygons(lines, tol, ops) == [Polygon(lines[0].coords, [])])
  {
    if |lines| >= 2 {
      var union := ops.unaryUnion(lines);
      var snapped := SnappedLines(SnapSources(lines, union), union, tol, ops);
      if snapped != [] {
        KeptPolygonsAdmissible(ops.polygonize(ops.unaryUnion(snapped)), tol, ops);
      }
    }
  }

  /** The non-empty parts of a snapped multi-line, appended one by one. */
  method UnpackParts(parts: seq<seq<Point>>) returns (pieces: seq<Geom>)
    ensures pieces == NonEmptyParts(parts)
  {
    pieces := [];
    for j := 0 to |parts|
      invariant pieces == NonEmptyParts(parts[..j])
    {
      assert parts[..j + 1][..j] == parts[..j];
      if parts[j] != [] {
        pieces := pieces + [LineString(parts[j])];
      }
    }
    assert parts[..|parts|] == parts;
  }

  /** The snapping loop: each source snapped onto the union, keeping the
      non-empty line strings it yields. */
  method SnapAll(geomsToSnap: seq<Geom>, tempUnion: Geom, tol: real, ops: Ops) returns (snappedLines: seq<Geom>)
    ensures snappedLines == SnappedLines(geomsToSnap, tempUnion, tol, ops)
  {
    snappedLines := [];
    for i := 0 to |geomsToSnap|
      invariant snappedLines == SnappedLines(geomsToSnap[..i], tempUnion, tol, ops)
    {
      assert geomsToSnap[..i + 1][..i] == geomsToSnap[..i];
      var snappedLine := ops.snap(geomsToSnap[i], tempUnion, tol);
      assert SnappedLines(geomsToSnap[..i + 1], tempUnion, tol, ops) ==
             SnappedLines(geomsToSnap[..i], tempUnion, tol, ops) + SnapPieces(snappedLine);
      if snappedLine.LineString? && !IsEmpty(snappedLine) {
        snappedLines := snappedLines + [snappedLine];
      } else if snappedLine.MultiLineString? {
        var pieces := UnpackParts(snappedLine.parts);
        snappedLines := snappedLines + pieces;
      } else {
        assert SnapPieces(snappedLine) == [];
      }
    }
    assert geomsToSnap[..|geomsToSnap|] == geomsToSnap;
  }

  /** The filtering loop: the cleaned form of each admissible face, when it
      stays admissible. */
  method KeepAdmissible(polygons: seq<Geom>, tol: real, ops: Ops) returns (validPolygons: seq<Geom>)
    ensures validPolygons == KeptPolygons(polygons, tol, ops)
  {
    validPolygons := [];
    for k := 0 to |polygons|
      invariant validPolygons == KeptPolygons(polygons[..k], tol, ops)
    {
      assert polygons[..k + 1][..k] == polygons[..k];
      var poly := polygons[k];
      if poly.Polygon? && ops.isValid(poly) && ops.area(poly) > Mul(tol, tol) {
        var cleanedPoly := SnapAndClean(poly, tol, ops);
        if cleanedPoly.Polygon? && ops.isValid(cleanedPoly) && ops.area(cleanedPoly) > Mul(tol, tol) {
          validPolygons := validPolygons + [cleanedPoly];
        }
      }
    }
    assert polygons[..|polygons|] == polygons;
  }

  /** merge_lines_to_polygons: snap the lines onto their union, polygonize, and
      keep the faces that stay admissible after cleaning. */
  method MergeLinesToPolygons(lineStrings: seq<Geom>, tol: real, ops: Ops) returns (validPolygons: seq<Geom>)
    ensures validPolygons == MergedPolygons(lineStrings, tol, ops)
  {
    if lineStrings == [] {
      return [];
    }
    if |lineStrings| == 1 {
      // a single line forms a polygon only when it is closed
      var only := lineStrings[0];
      if only.LineString? && IsClosed(only.coords) && |only.coords| >= 4 {
        var poly := Polygon(only.coords, []);
        if ops.isValid(poly) {
          return [poly];
        }
      }
      return [];
    }
    var tempUnion := ops.unaryUnion(lineStrings);
    var snappedLines := SnapAll(SnapSources(lineStrings, tempUnion), tempUnion, tol, ops);
    if snappedLines == [] {
      return [];
    }
    var mergedGeometry := ops.unaryUnion(snappedLines);
    validPolygons := KeepAdmissible(ops.polygonize(mergedGeometry), tol, ops);
  }

  // ---------------------------------------------------------------------------
  // extract_wall_candidates
  // ---------------------------------------------------------------------------

  function LayerOf(e: EntityRecord): string {
    e.layer.GetOr("0")
  }

  function InsertOf(t: TextRecord): Point {
    t.insert.GetOr(Point(0.0, 0.0))
  }

  /** The text's insert point lies inside the geometry or closer than ten
      tolerances to it. */
  predicate NearText(g: Geom, t: TextRecord, tol: real, ops: Ops) {
    ops.contains(g, InsertOf(t)) || ops.distance(g, InsertOf(t)) < tol * 10.0
  }

  /** The label of a candidate: the 'text' of the first text entity, in list
      order, that is near the geometry. */
  function AssociatedLabel(g: Geom, texts: seq<TextRecord>, tol: real, ops: Ops): Option<string> {
    if texts == [] then None
    else if NearText(g, texts[0], tol, ops) then texts[0].text
    else AssociatedLabel(g, texts[1..], tol, ops)
  }

  /** Text `i` is the first text entity near the geometry. */
  predicate FirstNear(g: Geom, texts: seq<TextRecord>, i: int, tol: real, ops: Ops) {
    && 0 <= i < |texts|
    && NearText(g, texts[i], tol, ops)
    && forall j :: 0 <= j < i ==> !NearText(g, texts[j], tol, ops)
  }

  /** The label is the text of the first near text entity, not of a nearer one
      further down the list; with no near text there is no label. */
  lemma {:induction false} AssociatedLabelIsFirstNear(g: Geom, texts: seq<TextRecord>, tol: real, ops: Ops)
    ensures (forall j :: 0 <= j < |texts| ==> !NearText(g, texts[j], tol, ops)) ==>
      AssociatedLabel(g, texts, tol, ops) == None
    ensures forall i :: FirstNear(g, texts, i, tol, ops) ==> AssociatedLabel(g, texts, tol, ops) == texts[i].text
  {
    if texts != [] {
      AssociatedLabelIsFirstNear(g, texts[1..], tol, ops);
      forall i | 0 < i && FirstNear(g, texts, i, tol, ops)
        ensures AssociatedLabel(g, texts, tol, ops) == texts[i].text
      {
        assert texts[1..][i - 1] == texts[i];
        assert forall j :: 0 <= j < i - 1 ==> texts[1..][j] == texts[j + 1];
        assert FirstNear(g, texts[1..], i - 1, tol, ops);
      }
      assert forall j :: 0 <= j < |texts| - 1 ==> texts[1..][j] == texts[j + 1];
    }
  }

  /** The label scan shared by both passes of extract_wall_candidates: the first
      near text wins and the scan stops there. */
  method FindLabel(g: Geom, texts: seq<TextRecord>, tol: real, ops: Ops) returns (rawLabel: Option<string>)
    ensures rawLabel == AssociatedLabel(g, texts, tol, ops)
  {
    rawLabel := None;
    var i := 0;
    while i < |texts|
      invariant 0 <= i <= |texts|
      invariant AssociatedLabel(g, texts, tol, ops) == AssociatedLabel(g, texts[i..], tol, ops)
    {
      if NearText(g, texts[i], tol, ops) {
        rawLabel := texts[i].text;
        return;
      }
      assert texts[i..][1..] == texts[i + 1..];
      i := i + 1;
    }
  }

  /** The geometry an entity becomes, when it is an admissible polygon. */
  predicate PolygonEntity(e: EntityRecord, tol: real, ops: Ops) {
    var g := DxfEntityToShapely(e, ops);
    g.Some? && Admissible(g.value, tol, ops)
  }

  /** The line string an entity becomes, if any. */
  predicate LineEntity(e: EntityRecord, ops: Ops) {
    var g := DxfEntityToShapely(e, ops);
    g.Some? && g.value.LineString?
  }

  /** First pass: a candidate for each entity that is directly an admissible
      polygon, in entity order. */
  function PolygonCandidates(es: seq<EntityRecord>, texts: seq<TextRecord>, tol: real, ops: Ops): seq<Candidate> {
    if es == [] then []
    else
      var rest := PolygonCandidates(es[..|es| - 1], texts, tol, ops);
      var e := es[|es| - 1];
      if PolygonEntity(e, tol, ops) then
        var g := DxfEntityToShapely(e, ops).value;
        rest + [Candidate(g, LayerOf(e), AssociatedLabel(g, texts, tol, ops))]
      else rest
  }

  /** `line_segments_by_layer.setdefault(layer, []).append(line)`. */
  function AddLine(groups: seq<(string, seq<Geom>)>, layer: string, line: Geom): (r: seq<(string, seq<Geom>)>)
    requires DistinctKeys(groups)
    ensures DistinctKeys(r)
  {
    Put(groups, layer, Get(groups, layer).GetOr([]) + [line])
  }

  /** The lines of each layer, layers in order of first appearance. */
  function GroupLines(es: seq<EntityRecord>, ops: Ops): (r: seq<(string, seq<Geom>)>)
    ensures DistinctKeys(r)
  {
    if es == [] then []
    else
      var groups := GroupLines(es[..|es| - 1], ops);
      var e := es[|es| - 1];
      if LineEntity(e, ops) then AddLine(groups, LayerOf(e), DxfEntityToShapely(e, ops).value)
      else groups
  }

  /** The candidates made from the merged polygons of one layer. */
  function LayerCandidates(polys: seq<Geom>, layer: string, texts: seq<TextRecord>, tol: real, ops: Ops): seq<Candidate> {
    if polys == [] then []
    else
      var rest := LayerCandidates(polys[..|polys| - 1], layer, texts, tol, ops);
      var p := polys[|polys| - 1];
      if Admissible(p, tol, ops) then rest + [Candidate(p, layer, AssociatedLabel(p, texts, tol, ops))] else rest
  }

  /** Second pass: layer by layer, the polygons merged from that layer's lines;
      a layer with fewer than two lines contributes nothing. */
  function LineCandidates(groups: seq<(string, seq<Geom>)>, texts: seq<TextRecord>, tol: real, ops: Ops): seq<Candidate> {
    if groups == [] then []
    else
      var rest := LineCandidates(groups[..|groups| - 1], texts, tol, ops);
      var (layer, lines) := groups[|groups| - 1];
      if |lines| < 2 then rest
      else rest + LayerCandidates(MergedPolygons(lines, tol, ops), layer, texts, tol, ops)
  }

  /** What extract_wall_candidates returns: polygon candidates first, then the
      candidates merged from lines. */
  function WallCandidates(es: seq<EntityRecord>, texts: seq<TextRecord>, tol: real, ops: Ops): seq<Candidate> {
    PolygonCandidates(es, texts, tol, ops) + LineCandidates(GroupLines(es, ops), texts, tol, ops)
  }

  /** The line strings of the entities on `layer`, in entity order. */
  function LinesOn(es: seq<EntityRecord>, layer: string, ops: Ops): seq<Geom> {
    if es == [] then []
    else
      var e := es[|es| - 1];
      LinesOn(es[..|es| - 1], layer, ops) +
        (if LineEntity(e, ops) && LayerOf(e) == layer then [DxfEntityToShapely(e, ops).value] else [])
  }

  /** The layers of the line entities, each once, in order of first appearance. */
  function FirstAppearances(es: seq<EntityRecord>, ops: Ops): seq<string> {
    if es == [] then []
    else
      var rest := FirstAppearances(es[..|es| - 1], ops);
      var e := es[|es| - 1];
      rest + (if LineEntity(e, ops) && LayerOf(e) !in rest then [LayerOf(e)] else [])
  }

  /** `groups` is keyed by `layers`, in that order, and each entry holds exactly
      that layer's lines among `es`. */
  predicate GroupsMatch(groups: seq<(string, seq<Geom>)>, layers: seq<string>, es: seq<EntityRecord>, ops: Ops) {
    |groups| == |layers| &&
    forall i :: 0 <= i < |groups| ==> groups[i] == (layers[i], LinesOn(es, layers[i], ops))
  }

  /** `line_segments_by_layer` holds one entry per layer that has a line, in
      order of the layer's first line, and each entry is exactly that layer's
      lines in entity order. */
  lemma {:induction false} GroupLinesCharacterization(es: seq<EntityRecord>, ops: Ops)
    ensures GroupsMatch(GroupLines(es, ops), FirstAppearances(es, ops), es, ops)
  {
    if es != [] {
      var prefix := es[..|es| - 1];
      GroupLinesCharacterization(prefix, ops);
      GroupLinesStep(prefix, es[|es| - 1], ops);
      assert prefix + [es[|es| - 1]] == es;
    }
  }

  lemma GroupLinesStep(prefix: seq<EntityRecord>, e: EntityRecord, ops: Ops)
    requires GroupsMatch(GroupLines(prefix, ops), FirstAppearances(prefix, ops), prefix, ops)
    ensures GroupsMatch(GroupLines(prefix + [e], ops), FirstAppearances(prefix + [e], ops), prefix + [e], ops)
  {
    var es := prefix + [e];
    assert es[..|es| - 1] == prefix;
    var groups := GroupLines(prefix, ops);
    var layers := FirstAppearances(prefix, ops);
    if LineEntity(e, ops) {
      var layer := LayerOf(e);
      var line := DxfEntityToShapely(e, ops).value;
      assert forall k :: LinesOn(es, k, ops) == LinesOn(prefix, k, ops) + (if k == layer then [line] else []);
      if HasKey(groups, layer) {
        var m :| 0 <= m < |groups| && groups[m].0 == layer;
        GetAt(groups, m);
        assert layers[m] == layer;
        AppendToGroup(groups, layers, prefix, es, layer, line, m, ops);
      } else {
        assert layer !in layers;
        assert FirstAppearances(es, ops) == layers + [layer];
        assert Get(groups, layer) == None;
        assert Get(groups, layer).GetOr([]) + [line] == [line];
        assert GroupLines(es, ops) == AddLine(groups, layer, line);
        LinesOnAbsent(prefix, layer, ops);
        StartGroup(groups, layers, prefix, es, layer, line, ops);
      }
    } else {
      assert forall k :: LinesOn(es, k, ops) == LinesOn(prefix, k, ops);
    }
  }

  lemma AppendToGroup(groups: seq<(string, seq<Geom>)>, layers: seq<string>, prefix: seq<EntityRecord>,
                      es: seq<EntityRecord>, layer: string, line: Geom, m: nat, ops: Ops)
    requires GroupsMatch(groups, layers, prefix, ops) && DistinctKeys(groups)
    requires m < |groups| && layers[m] == layer
    requires forall k :: LinesOn(es, k, ops) == LinesOn(prefix, k, ops) + (if k == layer then [line] else [])
    ensures HasKey(groups, layer)
    ensures GroupsMatch(Put(groups, layer, groups[m].1 + [line]), layers, es, ops)
  {
    var r := Put(groups, layer, groups[m].1 + [line]);
    assert groups[m].0 == layer;
    assert HasKey(groups, layer);
    forall i | 0 <= i < |r|
      ensures r[i] == (layers[i], LinesOn(es, layers[i], ops))
    {
      assert groups[i] == (layers[i], LinesOn(prefix, layers[i], ops));
      assert LinesOn(es, layers[i], ops) == LinesOn(prefix, layers[i], ops) + (if layers[i] == layer then [line] else []);
      if layers[i] == layer {
        assert i == m;
        assert r[i] == (layer, groups[m].1 + [line]);
      } else {
        assert LinesOn(prefix, layers[i], ops) + [] == LinesOn(prefix, layers[i], ops);
        assert r[i] == groups[i];
      }
    }
  }

  lemma StartGroup(groups: seq<(string, seq<Geom>)>, layers: seq<string>, prefix: seq<EntityRecord>,
                   es: seq<EntityRecord>, layer: string, line: Geom, ops: Ops)
    requires GroupsMatch(groups, layers, prefix, ops) && DistinctKeys(groups)
    requires !HasKey(groups, layer) && layer !in layers
    requires LinesOn(prefix, layer, ops) == []
    requires forall k :: LinesOn(es, k, ops) == LinesOn(prefix, k, ops) + (if k == layer then [line] else [])
    ensures GroupsMatch(groups + [(layer, [line])], layers + [layer], es, ops)
  {
    var r := groups + [(layer, [line])];
    forall i | 0 <= i < |r|
      ensures r[i] == ((layers + [layer])[i], LinesOn(es, (layers + [layer])[i], ops))
    {
      if i < |groups| {
        assert (layers + [layer])[i] == layers[i] && r[i] == groups[i];
        assert groups[i] == (layers[i], LinesOn(prefix, layers[i], ops));
        assert layers[i] != layer;
        assert LinesOn(es, layers[i], ops) == LinesOn(prefix, layers[i], ops) + [];
        assert LinesOn(prefix, layers[i], ops) + [] == LinesOn(prefix, layers[i], ops);
      } else {
        assert (layers + [layer])[i] == layer && r[i] == (layer, [line]);
        assert LinesOn(es, layer, ops) == LinesOn(prefix, layer, ops) + [line];
        assert LinesOn(es, layer, ops) == [line];
      }
    }
  }

  /** A layer that never appears has no lines. */
  lemma {:induction false} LinesOnAbsent(es: seq<EntityRecord>, layer: string, ops: Ops)
    requires layer !in FirstAppearances(es, ops)
    ensures LinesOn(es, layer, ops) == []
  {
    if es != [] {
      var rest := FirstAppearances(es[..|es| - 1], ops);
      assert layer !in rest;
      LinesOnAbsent(es[..|es| - 1], layer, ops);
    }
  }

  /** Every candidate is an admissible polygon. */
  lemma {:induction false} WallCandidatesAdmissible(es: seq<EntityRecord>, texts: seq<TextRecord>, tol: real, ops: Ops)
    ensures forall c :: c in WallCandidates(es, texts, tol, ops) ==> Admissible(c.geometry, tol, ops)
  {
    PolygonCandidatesAdmissible(es, texts, tol, ops);
    LineCandidatesProvenance(GroupLines(es, ops), texts, tol, ops);
  }

  lemma {:induction false} PolygonCandidatesAdmissible(es: seq<EntityRecord>, texts: seq<TextRecord>, tol: real, ops: Ops)
    ensures forall c :: c in PolygonCandidates(es, texts, tol, ops) ==>
      Admissible(c.geometry, tol, ops) &&
      exists e :: e in es && LayerOf(e) == c.layerName && DxfEntityToShapely(e, ops) == Some(c.geometry)
  {
    if es != [] {
      PolygonCandidatesAdmissible(es[..|es| - 1], texts, tol, ops);
      forall c | c in PolygonCandidates(es[..|es| - 1], texts, tol, ops)
        ensures exists e :: e in es && LayerOf(e) == c.layerName && DxfEntityToShapely(e, ops) == Some(c.geometry)
      {
        var e :| e in es[..|es| - 1] && LayerOf(e) == c.layerName && DxfEntityToShapely(e, ops) == Some(c.geometry);
        assert e in es;
      }
    }
  }

  /** A first-pass candidate is the polygon of a closed polyline on its layer,
      built from that polyline's own vertices or repaired by `buffer(0)`. */
  lemma PolygonCandidateFromVertices(es: seq<EntityRecord>, texts: seq<TextRecord>, tol: real, ops: Ops, c: Candidate)
    requires c in PolygonCandidates(es, texts, tol, ops)
    ensures exists e :: (e in es && ClosedPolyline(e) && LayerOf(e) == c.layerName &&
                         (c.geometry == Polygon(e.vertices.value, []) ||
                          c.geometry == ops.buffer0(Polygon(e.vertices.value, []))))
  {
    PolygonCandidatesAdmissible(es, texts, tol, ops);
    var e :| e in es && LayerOf(e) == c.layerName && DxfEntityToShapely(e, ops) == Some(c.geometry);
    assert ClosedPolyline(e);
  }

  lemma {:induction false} LayerCandidatesAdmissible(polys: seq<Geom>, layer: string, texts: seq<TextRecord>, tol: real, ops: Ops)
    ensures forall c :: c in LayerCandidates(polys, layer, texts, tol, ops) ==>
      Admissible(c.geometry, tol, ops) && c.layerName == layer
  {
    if polys != [] {
      LayerCandidatesAdmissible(polys[..|polys| - 1], layer, texts, tol, ops);
    }
  }

  lemma {:induction false} LineCandidatesProvenance(groups: seq<(string, seq<Geom>)>, texts: seq<TextRecord>, tol: real, ops: Ops)
    ensures forall c :: c in LineCandidates(groups, texts, tol, ops) ==>
      Admissible(c.geometry, tol, ops) &&
      exists i :: 0 <= i < |groups| && groups[i].0 == c.layerName && |groups[i].1| >= 2
  {
    if groups != [] {
      var prefix := groups[..|groups| - 1];
      LineCandidatesProvenance(prefix, texts, tol, ops);
      var (layer, lines) := groups[|groups| - 1];
      if |lines| >= 2 {
        LayerCandidatesAdmissible(MergedPolygons(lines, tol, ops), layer, texts, tol, ops);
      }
      forall c | c in LineCandidates(groups, texts, tol, ops)
        ensures exists i :: 0 <= i < |groups| && groups[i].0 == c.layerName && |groups[i].1| >= 2
      {
        if c in LineCandidates(prefix, texts, tol, ops) {
          var i :| 0 <= i < |prefix| && prefix[i].0 == c.layerName && |prefix[i].1| >= 2;
          assert groups[i] == prefix[i];
        } else {
          assert groups[|groups| - 1].0 == c.layerName;
        }
      }
    }
  }

  /** A candidate either comes straight from a polygon entity on its layer, or
      its layer has at least two lines: layers with fewer contribute nothing. */
  lemma CandidateProvenance(es: seq<EntityRecord>, texts: seq<TextRecord>, tol: real, ops: Ops, c: Candidate)
    requires c in WallCandidates(es, texts, tol, ops)
    ensures
      || (exists e :: e in es && LayerOf(e) == c.layerName && DxfEntityToShapely(e, ops) == Some(c.geometry))
      || |LinesOn(es, c.layerName, ops)| >= 2
  {
    PolygonCandidatesAdmissible(es, texts, tol, ops);
    var groups := GroupLines(es, ops);
    LineCandidatesProvenance(groups, texts, tol, ops);
    GroupLinesCharacterization(es, ops);
    if c !in PolygonCandidates(es, texts, tol, ops) {
      var i :| 0 <= i < |groups| && groups[i].0 == c.layerName && |groups[i].1| >= 2;
    }
  }

  /** The first pass of extract_wall_candidates: polygon candidates, and the
      lines grouped by layer. */
  method SortEntities(dxfEntities: seq<EntityRecord>, textEntities: seq<TextRecord>, tol: real, ops: Ops)
    returns (wallCandidates: seq<Candidate>, lineSegmentsByLayer: seq<(string, seq<Geom>)>)
    ensures wallCandidates == PolygonCandidates(dxfEntities, textEntities, tol, ops)
    ensures lineSegmentsByLayer == GroupLines(dxfEntities, ops)
  {
    wallCandidates := [];
    lineSegmentsByLayer := [];
    for i := 0 to |dxfEntities|
      invariant wallCandidates == PolygonCandidates(dxfEntities[..i], textEntities, tol, ops)
      invariant lineSegmentsByLayer == GroupLines(dxfEntities[..i], ops)
    {
      assert dxfEntities[..i + 1][..i] == dxfEntities[..i];
      var entity := dxfEntities[i];
      var layerName := LayerOf(entity);
      var geom := DxfEntityToShapely(entity, ops);
      if geom.Some? && geom.value.Polygon? && ops.isValid(geom.value) && ops.area(geom.value) > Mul(tol, tol) {
        var rawLabelText := FindLabel(geom.value, textEntities, tol, ops);
        wallCandidates := wallCandidates + [Candidate(geom.value, layerName, rawLabelText)];
      } else if geom.Some? && geom.value.LineString? {
        lineSegmentsByLayer := AddLine(lineSegmentsByLayer, layerName, geom.value);
      }
    }
    assert dxfEntities[..|dxfEntities|] == dxfEntities;
  }

  /** The candidates of one layer's merged polygons, each with its label. */
  method LabelLayerPolygons(polygonsFromLines: seq<Geom>, layerName: string, textEntities: seq<TextRecord>, tol: real, ops: Ops)
    returns (candidates: seq<Candidate>)
    ensures candidates == LayerCandidates(polygonsFromLines, layerName, textEntities, tol, ops)
  {
    candidates := [];
    for j := 0 to |polygonsFromLines|
      invariant candidates == LayerCandidates(polygonsFromLines[..j], layerName, textEntities, tol, ops)
    {
      assert polygonsFromLines[..j + 1][..j] == polygonsFromLines[..j];
      var poly := polygonsFromLines[j];
      if poly.Polygon? && ops.isValid(poly) && ops.area(poly) > Mul(tol, tol) {
        var rawLabelText := FindLabel(poly, textEntities, tol, ops);
        candidates := candidates + [Candidate(poly, layerName, rawLabelText)];
      }
    }
    assert polygonsFromLines[..|polygonsFromLines|] == polygonsFromLines;
  }

  /** The second pass: the layers with at least two lines, merged in turn. */
  method MergeLayers(lineSegmentsByLayer: seq<(string, seq<Geom>)>, textEntities: seq<TextRecord>, tol: real, ops: Ops)
    returns (candidates: seq<Candidate>)
    ensures candidates == LineCandidates(lineSegmentsByLayer, textEntities, tol, ops)
  {
    candidates := [];
    for k := 0 to |lineSegmentsByLayer|
      invariant candidates == LineCandidates(lineSegmentsByLayer[..k], textEntities, tol, ops)
    {
      assert lineSegmentsByLayer[..k + 1][..k] == lineSegmentsByLayer[..k];
      var (layerName, lines) := lineSegmentsByLayer[k];
      if |lines| < 2 {
        continue;
      }
      var polygonsFromLines := MergeLinesToPolygons(lines, tol, ops);
      var layerCandidates := LabelLayerPolygons(polygonsFromLines, layerName, textEntities, tol, ops);
      candidates := candidates + layerCandidates;
    }
    assert lineSegmentsByLayer[..|lineSegmentsByLayer|] == lineSegmentsByLayer;
  }

  /** extract_wall_candidates: polygon candidates first, then the candidates
      merged from each layer's lines. */
  method ExtractWallCandidates(dxfEntities: seq<EntityRecord>, textEntities: seq<TextRecord>, tol: real, ops: Ops)
    returns (wallCandidates: seq<Candidate>)
    ensures wallCandidates == WallCandidates(dxfEntities, textEntities, tol, ops)
  {
    var lineSegmentsByLayer;
    wallCandidates, lineSegmentsByLayer := SortEntities(dxfEntities, textEntities, tol, ops);
    var fromLines := MergeLayers(lineSegmentsByLayer, textEntities, tol, ops);
    wallCandidates := wallCandidates + fromLines;
  }
}
