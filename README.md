# Wall detection from CAD drawings — a verified model

This project models the core of a wall detector for architectural CAD
drawings (DXF files) in Dafny, and proves properties of that model. The
detector has five parts, each modelled in its own module.

- **Candidate extractor** (`GeometryUtils`, from `wall_detector/geometry_utils.py`).
  It turns drawing entities into geometries. Closed polylines become
  polygons. Open lines are grouped per layer, snapped onto their union and
  polygonized. Every admissible polygon becomes a wall candidate, labelled
  with the first text entity that lies inside it or near it. The module also
  models the thickness estimate, which takes the short side of the minimum
  rotated rectangle.
- **Classifier** (`WallClassifier`, from `wall_detector/wall_classifier.py`).
  `Wall` is a class whose fields the classifier updates in place. Each wall
  gets its type from the first of four stages that applies:
  1. its text label is a legend key;
  2. a legend regular expression matches its layer name;
  3. its thickness lies in a legend range `[min - tol, max + tol)`;
  4. otherwise it is "Unknown".
- **Centre-line validation script** (`Segments` and `CenterlineValidation`,
  from `test.py`). It collects entities on five numbered layers that fall
  inside an x-window. It keeps a boundary line when the line is horizontal
  or vertical and lies within 1.5 of a wall-centre dot. It keeps a door line
  when the line is horizontal or vertical and is connected to a kept
  boundary.
- **Legend-association script** (`LegendAssociation`, from `wall_detector.py`).
  Every line or polyline gets the nearest legend text strictly within 200.
  If there is none, it gets the type its layer stands for in the reversed
  legend, and failing that, "Unknown Wall".
- **Loader** (`DataLoader`, from `wall_detector/data_loader.py`). This covers
  the `CADEntity` wrapper and the wall-layer filter over lines and
  polylines.

`Common` holds the shared vocabulary:
- points and squared distances;
- `Extended`, a real that may be `float('inf')`;
- insertion-ordered dictionaries, modelled as sequences of pairs with
  distinct keys.

`Planar` stands for the geometry library (Shapely). Its geometry kinds form
a datatype. Every operation of the library is a field of the `Ops` record,
and nothing is known about those operations beyond the few facts that
`Sound` states.

Where the source uses `math.hypot`, the model carries squared distances.
`Common.HypotCompare` and `Common.SqrtMonotone` prove that every comparison
the source makes on hypot values gives the same answer on the squares.

## Model

| member | source | states |
|---|---|---|
| GeometryUtils.DxfEntityToShapely | wall_detector/geometry_utils.py:18-50 | no geometry exactly when the type or vertices are missing, the type is not a line type, or there are fewer than 2 vertices; a LINE is always a line string; a closed polyline of at least 4 vertices becomes its own polygon when that is valid, else its `buffer(0)` repair when that is a valid polygon, else the line string; every other result is the line string of the vertices |
| GeometryUtils.SnapAndClean | wall_detector/geometry_utils.py:195-221 | an empty input is returned as it is; an empty `buffer(0)` falls back to the simplified original; otherwise the simplified buffer is returned, or the buffer itself when its simplification is empty; so the result is empty exactly when the input is, or when both the buffer and the simplified original are |
| GeometryUtils.ComputeThickness | wall_detector/geometry_utils.py:127-192 | no thickness exactly for a non-polygon, an invalid or empty polygon, an unknown method or a zero perimeter; a thickness is never negative; with a usable rectangle it is the shorter of two adjacent sides; otherwise thickness times perimeter is twice the area |
| GeometryUtils.TenByTwoWallThickness | wall_detector/geometry_utils.py:173-189 | a 10 by 2 rectangle, which is its own minimum rectangle, has thickness 2 |
| GeometryUtils.AxisRectangleThickness | wall_detector/geometry_utils.py:173-189 | an axis-parallel rectangle of sides w and h, h ≤ w, that is its own minimum rectangle has thickness h |
| GeometryUtils.KeptPolygonsAdmissible | wall_detector/geometry_utils.py:117-124 | every polygon kept after polygonizing is a valid polygon of area above tol², and no more are kept than there were faces |
| GeometryUtils.MergedPolygonsShape | wall_detector/geometry_utils.py:65-124 | every merged polygon is valid; from two or more lines every one has area above tol²; a single line yields nothing or the polygon its closed ring bounds |
| GeometryUtils.MergeLinesToPolygons | wall_detector/geometry_utils.py:53-124 | the snapping loop, the multi-line unpacking loop and the filtering loop return exactly `MergedPolygons` of the input |
| GeometryUtils.SnapAll | wall_detector/geometry_utils.py:86-93 | the snapping loop keeps, in order, each non-empty snapped line string and the non-empty line-string parts of each snapped multi-line (`SnappedLines`) |
| GeometryUtils.UnpackParts | wall_detector/geometry_utils.py:90-93 | unpacking a snapped multi-line keeps exactly its non-empty parts, in order |
| GeometryUtils.KeepAdmissible | wall_detector/geometry_utils.py:117-122 | the filtering loop keeps, in order, the cleaned faces that pass the check before and after cleaning (`KeptPolygons`) |
| GeometryUtils.AssociatedLabelIsFirstNear | wall_detector/geometry_utils.py:271-277 | the label is the text of the first text entity, in list order, that is inside the geometry or within 10·tol of it; there is no label when no text is near |
| GeometryUtils.FindLabel | wall_detector/geometry_utils.py:269-277 | the label scan with its early exit returns `AssociatedLabel` |
| GeometryUtils.AddLine | wall_detector/geometry_utils.py:285-287 | appending a line under its layer keeps one entry per layer |
| GeometryUtils.GroupLines | wall_detector/geometry_utils.py:284-287 | the per-layer line dictionary has one entry per layer |
| GeometryUtils.GroupLinesCharacterization | wall_detector/geometry_utils.py:260-287 | the line dictionary has one entry per layer that has a line, in order of that layer's first line, and each entry holds exactly that layer's lines in entity order |
| GeometryUtils.PolygonCandidatesAdmissible | wall_detector/geometry_utils.py:263-283 | each first-pass candidate is an admissible polygon that some entity on the candidate's layer converts to |
| GeometryUtils.PolygonCandidateFromVertices | wall_detector/geometry_utils.py:263-283 | each first-pass candidate is the polygon of a closed polyline on its layer, built from that polyline's vertices or their `buffer(0)` repair |
| GeometryUtils.LayerCandidatesAdmissible | wall_detector/geometry_utils.py:295-309 | each candidate merged from a layer is admissible and carries that layer's name |
| GeometryUtils.LineCandidatesProvenance | wall_detector/geometry_utils.py:290-309 | each second-pass candidate is admissible and comes from a layer entry with at least 2 lines |
| GeometryUtils.WallCandidatesAdmissible | wall_detector/geometry_utils.py:238-311 | every wall candidate is a valid polygon of area above tol² |
| GeometryUtils.CandidateProvenance | wall_detector/geometry_utils.py:238-311 | a candidate either is the polygon of an entity on its layer, or its layer has at least two lines |
| GeometryUtils.ExtractWallCandidates | wall_detector/geometry_utils.py:238-311 | both passes, with the dictionary built in place, return the polygon candidates followed by the line-merged candidates |
| GeometryUtils.SortEntities | wall_detector/geometry_utils.py:262-287 | the first pass returns the polygon candidates and the per-layer line dictionary (`GroupLines`) |
| GeometryUtils.LabelLayerPolygons | wall_detector/geometry_utils.py:295-309 | the polygons merged from one layer become that layer's admissible, labelled candidates, in order |
| GeometryUtils.MergeLayers | wall_detector/geometry_utils.py:290-309 | the second pass skips layers with fewer than two lines and returns the candidates of the others, layer by layer |
| WallClassifier.Wall.constructor | wall_detector/wall_classifier.py:24-35 | a new wall has the given identity fields and no type, rule or thickness |
| WallClassifier.ThicknessOrComputed | wall_detector/wall_classifier.py:96-98 | a thickness already set is kept; a newly computed one needs a non-empty geometry and is never negative |
| WallClassifier.LabelRule | wall_detector/wall_classifier.py:86-87 | the label stage applies exactly when the raw label is non-empty and a legend key |
| WallClassifier.FirstLayerRule | wall_detector/wall_classifier.py:102-115 | the rule found has a pattern that compiles and matches the layer, and no earlier rule does; none is found only when no rule does |
| WallClassifier.FirstThicknessRule | wall_detector/wall_classifier.py:123-152 | the rule found has a range holding the thickness, and no earlier rule does; none is found only when no rule does |
| WallClassifier.Classify | wall_detector/wall_classifier.py:82-159 | classifying never changes id, geometry, label or layer, always sets a type and a rule, and keeps a thickness that was already set |
| WallClassifier.ApplyLabelRule | wall_detector/wall_classifier.py:85-98 | the wall is classified exactly when the label stage applies; it then holds the label stage's fields, and otherwise it is unchanged |
| WallClassifier.ApplyLayerRule | wall_detector/wall_classifier.py:100-115 | the wall is classified exactly when some pattern applies; it then takes the first such rule, and otherwise it is unchanged |
| WallClassifier.ApplyThicknessRule | wall_detector/wall_classifier.py:122-152 | the wall is classified exactly when it has a thickness that some range holds; it then takes the first such rule, and otherwise it is unchanged |
| WallClassifier.ClassifyOne | wall_detector/wall_classifier.py:83-159 | after the loop body a wall's state is `Classify` of its state before |
| WallClassifier.ClassifyWalls | wall_detector/wall_classifier.py:47-161 | the same list is returned, and every wall in it, even one listed twice, ends as `Classify` of its initial state |
| WallClassifier.ClassifyIdempotent | wall_detector/wall_classifier.py:82-161 | classifying a classified wall again changes nothing |
| WallClassifier.LabelStageIff | wall_detector/wall_classifier.py:86-91 | the assigned rule starts with "label: " exactly when the raw label is a non-empty legend key |
| WallClassifier.LayerStageTakesFirstMatch | wall_detector/wall_classifier.py:102-112 | a wall that reaches the layer stage takes the first matching rule's name (or the default text) and the rule text "layer: L (matches P)" |
| WallClassifier.PartitionLayerScenario | wall_detector/wall_classifier.py:100-112 | a wall on layer "WALL_PARTITION_2" with the single pattern "^WALL_PARTITION.*" is typed by the layer stage |
| WallClassifier.ThicknessStageTakesFirstMatch | wall_detector/wall_classifier.py:117-152 | a wall that reaches the thickness stage takes the first rule whose range holds its thickness, and keeps that thickness |
| WallClassifier.NoThicknessMeansUnknown | wall_detector/wall_classifier.py:117-159 | with no label rule and no matching pattern, a wall whose thickness is neither set nor computable (no geometry, a non-polygon, an invalid polygon or a zero perimeter) is "Unknown" / "unclassified" with no thickness |
| WallClassifier.UpperBoundExclusive | wall_detector/wall_classifier.py:140-143 | a thickness equal to the maximum is outside the range at tolerance 0 and inside it at tolerance 0.5 |
| WallClassifier.SingleRangeClassifies | wall_detector/wall_classifier.py:117-152 | an unlabelled wall of thickness t, 0 ≤ t < 4, against the single range 1 to 3 at tolerance 1 gets that rule's type, keeps t, and records the range in its rule text |
| WallClassifier.TenByTwoWallClassified | wall_detector/wall_classifier.py:117-152 | an unlabelled 10 by 2 wall against the single range 1 to 3 gets that rule's type, thickness 2, and the range recorded in its rule text |
| Segments.HorizontalOrVerticalEndpointsOnly | test.py:9-24 | only the first and last vertices decide the test |
| Segments.HorizontalOrVerticalReversed | test.py:14-22 | reversing the polyline does not change the answer |
| Segments.ShortPolylineIsHorizontalOrVertical | test.py:17-22 | a polyline whose ends are within the tolerance of each other always passes |
| Segments.DiagonalIsNotHorizontalOrVertical | test.py:9-24 | a diagonal fails once both offsets exceed the tolerance; a polyline with equal ends passes at tolerance 0 |
| Segments.Clamp01 | test.py:32 | the clamped parameter lies in [0, 1] and leaves values in [0, 1] alone |
| Segments.SegmentDistSq | test.py:27-35 | the squared distance is never negative, and a segment shorter than the epsilon is measured from its start |
| Segments.ClampedParameterIsClosest | test.py:32-35 | the point at the clamped projection is at least as close as any point of the segment |
| Segments.SegmentDistSqIsLeast | wall_detector.py:47-54 | for a segment longer than the epsilon, the value is the least squared distance to any point of the segment, and it is attained |
| Segments.SegmentDistSqAtMostEndpoints | test.py:27-35 | the distance is at most the distance to the start, and to the end when the segment is longer than the epsilon |
| Segments.SegmentDistSqOnSegment | test.py:27-35 | a point of the segment is at distance 0 |
| Segments.SegmentDistSqSymmetric | test.py:27-35 | swapping the endpoints of a segment longer than the epsilon does not change the distance |
| Segments.Ends | test.py:40-41 | the two ends tried are the first and last vertices |
| Segments.SegmentsConnectedByHypot | test.py:38-44 | the squared-distance test agrees with the hypot test on all four end pairs |
| Segments.SegmentsConnectedSymmetric | test.py:38-44 | connectivity is symmetric |
| Segments.SegmentsConnectedEndsOnly | test.py:40-41 | interior vertices play no part in connectivity |
| Segments.SharedEndIsConnected | test.py:38-44 | polylines that share an end vertex are connected at any tolerance |
| Segments.ConnectedScenario | test.py:38-44 | (0,0)-(10,0) and (10,0)-(10,5) are connected at tolerance 2; (0,0)-(10,0) and (20,0)-(30,0) are not |
| Common.HypotCompare | test.py:182 | comparing a hypot with a bound gives the same answer as comparing squares |
| Common.SqrtMonotone | wall_detector.py:128 | comparing two hypots gives the same answer as comparing their squares |
| Common.GetAfterPut | wall_detector.py:26 | after a dictionary assignment, the key maps to the new value and every other key is unchanged |
| Common.Put | wall_detector/geometry_utils.py:285-287 | a dictionary assignment keeps the keys distinct and contains the key; an existing key keeps its place and takes the new value, a new key goes last |
| Common.Get | wall_detector.py:89 | a lookup finds a value exactly when the key is present |
| CenterlineValidation.Coords | test.py:94-108 | a LINE, LWPOLYLINE, POLYLINE, POINT, TEXT or MTEXT entity yields its own points; any other type yields none |
| CenterlineValidation.CollectTargets | test.py:86-151 | the collection loop returns `Collect`: the dots, boundaries, doors, labels and poles of the entities kept on each layer |
| CenterlineValidation.SelectedMembership | test.py:86-151 | a record is collected for a layer exactly when some entity on that layer with a vertex in the x-window yields it |
| CenterlineValidation.LabelsMembership | test.py:140-145 | a label is collected exactly when some entity kept on the label layer yields it |
| CenterlineValidation.DotsMembership | test.py:125-127 | the centre dots are exactly the vertices of the kept 8-F entities |
| CenterlineValidation.MinAtMost | test.py:180-182 | folding a new distance into the minimum is within the bound exactly when the old minimum or the new distance is |
| CenterlineValidation.MinSegmentDistSqAtMost | test.py:172-184 | the running minimum is within 1.5 exactly when some segment seen so far is |
| CenterlineValidation.MinDistanceToSegments | test.py:175-180 | the inner loop computes the minimum over consecutive segments, which is within 1.5 exactly when the dot is near the line |
| CenterlineValidation.NearSomeDot | test.py:170-184 | the dot loop, with its early exit, answers whether some dot is within 1.5 of the line |
| CenterlineValidation.ValidatedBoundaries | test.py:159-187 | every validated boundary has at least two vertices |
| CenterlineValidation.ValidateBoundaries | test.py:159-187 | step 2 returns `ValidatedBoundaries` |
| CenterlineValidation.ValidatedBoundariesMembership | test.py:159-187 | a boundary is validated exactly when it is horizontal or vertical within 2.0 and some dot is within 1.5 of one of its segments |
| CenterlineValidation.NoDotsNoBoundaries | test.py:170-187 | without centre dots no boundary is validated |
| CenterlineValidation.ValidatedDoors | test.py:192-210 | no more doors come out than went in |
| CenterlineValidation.ValidateDoors | test.py:192-210 | step 3 returns `ValidatedDoors` |
| CenterlineValidation.ValidatedDoorsMembership | test.py:192-210 | a door is validated exactly when it is horizontal or vertical within 2.0 and connected within 3.0 to a validated boundary |
| CenterlineValidation.NoBoundariesNoDoors | test.py:202-210 | with no validated boundary no door is validated |
| CenterlineValidation.ValidateScene | test.py:86-210 | the three steps run in sequence on one drawing |
| CenterlineValidation.DoorProvenance | test.py:86-210 | every validated door comes from a kept 8-1 entity and touches a kept 8-4 entity that is itself validated |
| LegendAssociation.Invert | wall_detector.py:26 | the reversed dictionary has distinct keys, and its keys are exactly the values of the legend |
| LegendAssociation.InvertUndoes | wall_detector.py:26 | when values are distinct, each value leads back to its key |
| LegendAssociation.LayerToTypeName | wall_detector.py:14-26 | each of the five layer names maps back to its legend text |
| LegendAssociation.InvertGivesKeys | wall_detector.py:26 | whatever the reversed dictionary returns is a legend text |
| LegendAssociation.RingMinIsLeast | wall_detector.py:121-126 | the running minimum over ring edges is the least edge distance so far, and it is attained |
| LegendAssociation.DistanceToRing | wall_detector.py:117-126 | for more than two vertices the distance is the least over all edges, the closing edge included |
| LegendAssociation.MeasureToEntity | wall_detector.py:117-126 | the measuring loop returns `DistanceToEntity` |
| LegendAssociation.ChooseIsNearest | wall_detector.py:110-131 | the chosen label is the nearest qualifying text (legend text, strictly within the threshold), the earliest on a tie; none is chosen exactly when no text qualifies |
| LegendAssociation.ExtendChoice | wall_detector.py:128-131 | one more text takes over the choice exactly when it qualifies and is strictly nearer; otherwise the earlier choice is still the nearest |
| LegendAssociation.NearestLabelScenario | wall_detector.py:113-131 | texts "A", "B", "B" at 5, 3, 50 with threshold 10: the nearer "B" is chosen |
| LegendAssociation.AssociateLabel | wall_detector.py:110-131 | the text loop returns the choice of `Choose` over the texts' distances |
| LegendAssociation.DistancesTo | wall_detector.py:113-126 | one distance per text, each the text's distance to the entity |
| LegendAssociation.PotentialWalls | wall_detector.py:71 | the potential walls are exactly the LINE, LWPOLYLINE and POLYLINE entities |
| LegendAssociation.ClassifyEntity | wall_detector.py:88-142 | an entity yields an element exactly when it is a line or polyline with vertices, and the element is the one `ElementFor` describes |
| LegendAssociation.ClassifyElements | wall_detector.py:87-142 | the entity loop returns `Elements` of the potential walls |
| LegendAssociation.ElementTypesAreLegendTexts | wall_detector.py:89-134 | every element's type is a legend text or "Unknown Wall" |
| LegendAssociation.OneElementPerEntity | wall_detector.py:87-142 | the elements are, one for one and in drawing order, those of the lines and polylines with vertices; an entity without coordinates is skipped |
| LegendAssociation.WithVerticesMembership | wall_detector.py:94-108 | the entities that reach the label search are exactly the lines and polylines with at least one vertex |
| LegendAssociation.ElementsMembership | wall_detector.py:87-142 | an element is produced exactly when some line or polyline with vertices yields it |
| DataLoader.CADEntity.constructor | wall_detector/data_loader.py:23-33 | text content is set only for TEXT and MTEXT, to the entity's text or to "" when reading it fails |
| DataLoader.UpperChar | wall_detector/data_loader.py:298 | lower-case ASCII letters are raised and every other character is kept |
| DataLoader.Upper | wall_detector/data_loader.py:298 | upper-casing keeps the length and maps each character |
| DataLoader.UpperIdempotent | wall_detector/data_loader.py:298-300 | upper-casing twice is upper-casing once |
| DataLoader.ExtractWallEntities | wall_detector/data_loader.py:275-308 | the result is the kept lines followed by the kept polylines, with the default patterns when none are given |
| DataLoader.AppendWallEntities | wall_detector/data_loader.py:294-306 | the inner loop appends the kept entities of one list, in order, to those found so far |
| DataLoader.WallEntitiesMembership | wall_detector/data_loader.py:294-306 | an entity is returned exactly when it is in the list, its layer can be read, and its layer matches a pattern or its thickness exceeds 50 |
| DataLoader.OnlyLinesAndPolylines | wall_detector/data_loader.py:294 | every returned entity is a kept line or polyline |
| DataLoader.LayerCaseIgnored | wall_detector/data_loader.py:298-300 | the layer test ignores the case of the layer name |
| DataLoader.DefaultPatternScenarios | wall_detector/data_loader.py:290-304 | with the default patterns, layer "a-wall-01" is a wall layer; a line on layer "0" is kept exactly when thicker than 50 |

## Left out

- File loading, DWG conversion, preview rendering, plotting, `print` and `input` are not modelled. `wall_detector/main.py` is not part of this model.
- The geometry library is abstract. Union, snapping, polygonizing, buffering, simplifying, validity, area, length, containment and distance are uninterpreted fields of `Planar.Ops`. Only `Sound` constrains them.
- The regular-expression engine is abstract (`WallClassifier.Regex`): whether a pattern compiles, and whether it matches the start of a layer name ignoring case.
- Number formatting (`:.2f` and `str(float)`) is abstract (`WallClassifier.Formatter`).
- Floating point is modelled as exact reals. `1e-12` is the real constant `Segments.Epsilon`. Rounding is not modelled.
- `math.hypot` and the library's square root are not computed. The model compares squared distances, and `Common.HypotCompare` and `Common.SqrtMonotone` show this gives the same answers.
- Reading coordinates from an entity (`dxf.start`, `get_points()`, `points()`, `dxf.location`, `dxf.insert`) is done before the model runs. Each entity carries its coordinates as a list of points, and every read is assumed to succeed.
- LegendAssociation.ClassifyEntity: assumes the POLYLINE coordinate read succeeds. `wall_detector.py:102` reads a POLYLINE through `get_points()`, whereas `test.py:104` reads the same entity type through `points()`; if the drawing library's POLYLINE lacks `get_points()`, the script stops with an error at the first POLYLINE, which the model does not capture.
- The text collection in `wall_detector.py` is done before the model runs: `plain_text()` and `strip()` are applied to the text, and the model receives texts already stripped.
- DataLoader.Upper: upper-cases ASCII letters only, whereas Python's `str.upper` also upper-cases other scripts. The default patterns are ASCII letters or the unchanged "壁".
- DataLoader.Keep: the attribute reads that may raise are modelled as missing values. A missing layer skips the entity, and a missing thickness means "no attribute". The other exceptions the `try` block would catch, such as a non-numeric thickness, are not modelled.
- WallClassifier.Rule: a legend entry's keys are modelled as optional fields of fixed types. A key present with a value of another type (for example, `None` as a bound) is not modelled.
- WallClassifier.ClassifyOne: models the loop body of `classify_walls`. `ClassifyWalls` is the loop itself, and it calls `ClassifyOne` for each wall.
- GeometryUtils.MergedPolygonsShape: a single closed line becomes a polygon without the area check that the multi-line path applies. So "every merged polygon has area above tol²" holds only from two lines up, as the code does.
- Segments.SegmentDistSqSymmetric: holds only for segments at least as long as the epsilon. A shorter segment is measured from its first endpoint, so there the order of the endpoints matters.
- GeometryUtils.DxfEntityToShapely: the polygon constructor raising an exception is not modelled. The library builds a polygon from any closed ring of at least four points.
- The nearest-neighbour graph and any rectangle test are not in the source and are not modelled.
