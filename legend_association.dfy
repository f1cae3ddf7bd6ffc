/** The legend-association script: every line or polyline of the drawing
    becomes a classified element. Its type is the text of the nearest legend
    text strictly within the association threshold, or else the type name its
    layer stands for in the reversed legend, or else "Unknown Wall". */
module LegendAssociation {
  import opened Common
  import opened Segments

  /** Legend text to layer name. */
  const LegendMapping: seq<(string, string)> := [
    ("外壁部", "A - WALL"),
    ("Retaining walls", "RETW"),
    ("Boundary walls", "WALL"),
    ("Doors", "A - DOOR"),
    ("Windows", "A - GLAZ")
  ]

  const AssociationDistanceThreshold: real := 200.0

  const UnknownWall := "Unknown Wall"

  // ---------------------------------------------------------------------------
  // The reversed legend
  // ---------------------------------------------------------------------------

  /** `{v: k for k, v in d.items()}`: a later key with the same value replaces
      an earlier one. */
  function Invert(d: seq<(string, string)>): (r: seq<(string, string)>)
    ensures DistinctKeys(r)
    ensures forall v :: HasKey(r, v) <==> exists i :: 0 <= i < |d| && d[i].1 == v
  {
    if d == [] then []
    else
      var rest := Invert(d[..|d| - 1]);
      var (k, v) := d[|d| - 1];
      var r := Put(rest, v, k);
      assert forall x :: HasKey(r, x) <==> x == v || HasKey(rest, x) by {
        forall x ensures HasKey(r, x) <==> x == v || HasKey(rest, x) {
          GetAfterPut(rest, v, k, x);
        }
      }
      assert forall i :: 0 <= i < |d| - 1 ==> d[..|d| - 1][i] == d[i];
      r
  }

  predicate DistinctValues(d: seq<(string, string)>) {
    forall i, j :: 0 <= i < j < |d| ==> d[i].1 != d[j].1
  }

  /** With distinct values the reversed dictionary undoes the original: the
      value of every entry leads back to its key. */
  lemma {:induction false} InvertUndoes(d: seq<(string, string)>)
    requires DistinctValues(d)
    ensures forall i :: 0 <= i < |d| ==> Get(Invert(d), d[i].1) == Some(d[i].0)
  {
    if d != [] {
      var prefix := d[..|d| - 1];
      assert DistinctValues(prefix);
      InvertUndoes(prefix);
      var (k, v) := d[|d| - 1];
      forall i | 0 <= i < |d|
        ensures Get(Invert(d), d[i].1) == Some(d[i].0)
      {
        GetAfterPut(Invert(prefix), v, k, d[i].1);
        if i < |d| - 1 {
          assert prefix[i] == d[i];
        }
      }
    }
  }

  /** `layer_to_type_name`. */
  function LayerToTypeName(): (r: seq<(string, string)>)
    ensures forall i :: 0 <= i < |LegendMapping| ==> Get(r, LegendMapping[i].1) == Some(LegendMapping[i].0)
  {
    assert DistinctValues(LegendMapping);
    InvertUndoes(LegendMapping);
    Invert(LegendMapping)
  }

  /** Whatever `layer_to_type_name` gives back is a legend text. */
  lemma {:induction false} InvertGivesKeys(d: seq<(string, string)>, x: string)
    ensures Get(Invert(d), x).Some? ==> HasKey(d, Get(Invert(d), x).value)
  {
    if d != [] {
      var prefix := d[..|d| - 1];
      var (k, v) := d[|d| - 1];
      InvertGivesKeys(prefix, x);
      GetAfterPut(Invert(prefix), v, k, x);
      if x != v && Get(Invert(prefix), x).Some? {
        var j :| 0 <= j < |prefix| && prefix[j].0 == Get(Invert(prefix), x).value;
        assert d[j] == prefix[j];
      } else if x == v {
        assert d[|d| - 1].0 == k;
      }
    }
  }

  // ---------------------------------------------------------------------------
  // Distance from a text to an entity
  // ---------------------------------------------------------------------------

  /** Squared distance from `p` to edge `i` of the closed ring through
      `coords`; the last edge goes back to the first vertex. */
  function EdgeDistSq(p: Point, coords: seq<Point>, i: int): real
    requires 0 <= i < |coords|
  {
    SegmentDistSq(p, coords[i], coords[(i + 1) % |coords|])
  }

  /** The running minimum over edges 0 .. n-1. */
  function RingMinDistSq(p: Point, coords: seq<Point>, n: nat): Extended
    requires n <= |coords|
  {
    if n == 0 then Infinity
    else RingMinDistSq(p, coords, n - 1).Min(Finite(EdgeDistSq(p, coords, n - 1)))
  }

  /** `current_min_dist_to_entity`, squared: the single segment of a
      two-vertex entity, every edge including the closing one for more
      vertices, and `inf` for a single vertex. */
  function DistanceToEntity(p: Point, coords: seq<Point>): Extended {
    if |coords| == 2 then Finite(SegmentDistSq(p, coords[0], coords[1]))
    else if |coords| > 2 then RingMinDistSq(p, coords, |coords|)
    else Infinity
  }

  /** The running minimum is the least edge distance so far, and is attained. */
  lemma {:induction false} RingMinIsLeast(p: Point, coords: seq<Point>, n: nat)
    requires 0 < n <= |coords|
    ensures RingMinDistSq(p, coords, n).Finite?
    ensures forall i :: 0 <= i < n ==> RingMinDistSq(p, coords, n).v <= EdgeDistSq(p, coords, i)
    ensures exists i :: 0 <= i < n && RingMinDistSq(p, coords, n).v == EdgeDistSq(p, coords, i)
  {
    if n > 1 {
      RingMinIsLeast(p, coords, n - 1);
    }
  }

  /** The distance of a text to an entity of more than two vertices is the
      least of its distances to the edges of the closed ring, whether or not
      the entity is marked closed. */
  lemma DistanceToRing(p: Point, coords: seq<Point>)
    requires |coords| > 2
    ensures DistanceToEntity(p, coords).Finite?
    ensures forall i :: 0 <= i < |coords| ==> DistanceToEntity(p, coords).v <= EdgeDistSq(p, coords, i)
    ensures exists i :: 0 <= i < |coords| && DistanceToEntity(p, coords).v == EdgeDistSq(p, coords, i)
  {
    RingMinIsLeast(p, coords, |coords|);
  }

  /** The measuring loop of the script. */
  method MeasureToEntity(p: Point, coords: seq<Point>) returns (d: Extended)
    ensures d == DistanceToEntity(p, coords)
  {
    d := Infinity;
    if |coords| == 2 {
      d := Finite(SegmentDistSq(p, coords[0], coords[1]));
    } else if |coords| > 2 {
      for i := 0 to |coords|
        invariant d == RingMinDistSq(p, coords, i)
      {
        var distToSegment := SegmentDistSq(p, coords[i], coords[(i + 1) % |coords|]);
        d := d.Min(Finite(distToSegment));
      }
    }
  }

  // ---------------------------------------------------------------------------
  // Choosing the label
  // ---------------------------------------------------------------------------

  /** A text with its (stripped) content and insertion point. */
  datatype TextInfo = TextInfo(text: string, insert: Point)

  /** The script's two accumulators: the label chosen so far and its squared
      distance. */
  datatype Association = Association(chosen: Option<string>, minDistSq: Extended)

  /** A text can be chosen: strictly within the threshold, and a legend text. */
  predicate Qualifies(t: TextInfo, d: Extended, legend: seq<(string, string)>, threshold: real) {
    d.Finite? && HypotLt(d.v, threshold) && HasKey(legend, t.text)
  }

  /** The accumulators after the texts, `dists[i]` being text `i`'s distance.
      A text replaces the current choice only when it qualifies and is
      strictly nearer. */
  function Choose(texts: seq<TextInfo>, dists: seq<Extended>, legend: seq<(string, string)>, threshold: real): Association
    requires |dists| == |texts|
  {
    if texts == [] then Association(None, Infinity)
    else
      var acc := Choose(texts[..|texts| - 1], dists[..|dists| - 1], legend, threshold);
      var t, d := texts[|texts| - 1], dists[|dists| - 1];
      if d.Finite? && HypotLt(d.v, threshold) && d.Below(acc.minDistSq) && HasKey(legend, t.text) then
        Association(Some(t.text), d)
      else acc
  }

  /** Text `i` is the one chosen: it qualifies, no qualifying text is nearer,
      and every earlier qualifying text is strictly farther. */
  predicate ChosenAt(texts: seq<TextInfo>, dists: seq<Extended>, legend: seq<(string, string)>, threshold: real, i: int)
    requires |dists| == |texts|
  {
    && 0 <= i < |texts|
    && Qualifies(texts[i], dists[i], legend, threshold)
    && (forall j :: 0 <= j < |texts| && Qualifies(texts[j], dists[j], legend, threshold) ==> dists[i].v <= dists[j].v)
    && (forall j :: 0 <= j < i && Qualifies(texts[j], dists[j], legend, threshold) ==> dists[i].v < dists[j].v)
  }

  /** The choice is the nearest qualifying text, the earliest on a tie, and
      there is none exactly when no text qualifies. A text that is not in the
      legend never takes part, so it cannot hide a farther legend text. */
  lemma {:induction false} ChooseIsNearest(texts: seq<TextInfo>, dists: seq<Extended>, legend: seq<(string, string)>, threshold: real)
    requires |dists| == |texts|
    ensures var a := Choose(texts, dists, legend, threshold);
      && (a.chosen.None? <==> forall j :: 0 <= j < |texts| ==> !Qualifies(texts[j], dists[j], legend, threshold))
      && (a.chosen.None? <==> a.minDistSq.Infinity?)
      && (a.chosen.Some? ==> exists i :: ChosenAt(texts, dists, legend, threshold, i) &&
                                        a.chosen.value == texts[i].text && a.minDistSq == dists[i])
  {
    if texts != [] {
      var n := |texts| - 1;
      var pt, pd := texts[..n], dists[..n];
      ChooseIsNearest(pt, pd, legend, threshold);
      var acc := Choose(pt, pd, legend, threshold);
      assert forall j :: 0 <= j < n ==> pt[j] == texts[j] && pd[j] == dists[j];
      if acc.chosen.Some? {
        var i :| ChosenAt(pt, pd, legend, threshold, i) && acc.chosen.value == pt[i].text && acc.minDistSq == pd[i];
        ExtendChoice(texts, dists, legend, threshold, i);
      } else if Qualifies(texts[n], dists[n], legend, threshold) {
        assert ChosenAt(texts, dists, legend, threshold, n);
      }
    }
  }

  /** One more text: it takes over exactly when it qualifies and is strictly
      nearer than the text chosen so far. */
  lemma ExtendChoice(texts: seq<TextInfo>, dists: seq<Extended>, legend: seq<(string, string)>, threshold: real, i: int)
    requires |dists| == |texts| > 0
    requires ChosenAt(texts[..|texts| - 1], dists[..|dists| - 1], legend, threshold, i)
    ensures
      var n := |texts| - 1;
      if Qualifies(texts[n], dists[n], legend, threshold) && dists[n].Below(dists[i])
      then ChosenAt(texts, dists, legend, threshold, n)
      else ChosenAt(texts, dists, legend, threshold, i)
  {
    var n := |texts| - 1;
    var pt, pd := texts[..n], dists[..n];
    assert forall j :: 0 <= j < n ==> pt[j] == texts[j] && pd[j] == dists[j];
    assert dists[i] == pd[i];
  }

  /** Three texts "A", "B", "B" at distances 5, 3 and 50 with threshold 10:
      the nearer "B" is chosen, neither the first text nor the one out of
      range. */
  lemma NearestLabelScenario(p: Point)
    ensures
      var texts := [TextInfo("A", p), TextInfo("B", p), TextInfo("B", p)];
      var dists := [Finite(25.0), Finite(9.0), Finite(2500.0)];
      Choose(texts, dists, [("A", "LA"), ("B", "LB")], 10.0) == Association(Some("B"), Finite(9.0))
  {
    var texts := [TextInfo("A", p), TextInfo("B", p), TextInfo("B", p)];
    var dists := [Finite(25.0), Finite(9.0), Finite(2500.0)];
    var legend := [("A", "LA"), ("B", "LB")];
    assert legend[0].0 == "A" && legend[1].0 == "B";
    assert HasKey(legend, "A") && HasKey(legend, "B");
    assert texts[..2][..1] == texts[..1] && dists[..2][..1] == dists[..1];
    assert Choose(texts[..1], dists[..1], legend, 10.0) == Association(Some("A"), Finite(25.0));
    assert Choose(texts[..2], dists[..2], legend, 10.0) == Association(Some("B"), Finite(9.0));
  }

  /** The label chosen for an entity, computed as the script does. */
  method AssociateLabel(texts: seq<TextInfo>, coords: seq<Point>, legend: seq<(string, string)>, threshold: real)
    returns (assignedLabelText: Option<string>)
    ensures assignedLabelText == Choose(texts, DistancesTo(texts, coords), legend, threshold).chosen
  {
    assignedLabelText := None;
    var minDistToLabel := Infinity;
    for k := 0 to |texts|
      invariant Association(assignedLabelText, minDistToLabel) == Choose(texts[..k], DistancesTo(texts, coords)[..k], legend, threshold)
    {
      var textInfo := texts[k];
      var current := MeasureToEntity(textInfo.insert, coords);
      assert texts[..k + 1][..k] == texts[..k];
      assert DistancesTo(texts, coords)[..k + 1][..k] == DistancesTo(texts, coords)[..k];
      if current.Finite? && HypotLt(current.v, threshold) && current.Below(minDistToLabel) {
        if HasKey(legend, textInfo.text) {
          assignedLabelText := Some(textInfo.text);
          minDistToLabel := current;
        }
      }
    }
    assert texts[..|texts|] == texts;
    assert DistancesTo(texts, coords)[..|texts|] == DistancesTo(texts, coords);
  }

  /** Each text's distance to the entity. */
  function DistancesTo(texts: seq<TextInfo>, coords: seq<Point>): (r: seq<Extended>)
    ensures |r| == |texts|
    ensures forall i :: 0 <= i < |texts| ==> r[i] == DistanceToEntity(texts[i].insert, coords)
  {
    seq(|texts|, i requires 0 <= i < |texts| => DistanceToEntity(texts[i].insert, coords))
  }

  // ---------------------------------------------------------------------------
  // Classifying the entities
  // ---------------------------------------------------------------------------

  /** A drawing entity: its layer, type, vertices (a line's start and end) and
      closed flag. */
  datatype DrawingEntity = DrawingEntity(layer: string, dxftype: string, points: seq<Point>, isClosed: bool)

  /** A classified element as the script records it. */
  datatype Element = Element(typeName: string, layer: string, coordinates: seq<Point>, entityType: string, isClosed: bool)

  predicate IsPotentialWall(e: DrawingEntity) {
    e.dxftype == "LINE" || e.dxftype == "LWPOLYLINE" || e.dxftype == "POLYLINE"
  }

  /** `potential_wall_entities`: the lines and polylines, in drawing order. */
  function PotentialWalls(es: seq<DrawingEntity>): (r: seq<DrawingEntity>)
    ensures forall e :: e in r <==> e in es && IsPotentialWall(e)
  {
    if es == [] then []
    else
      var e := es[|es| - 1];
      var rest := PotentialWalls(es[..|es| - 1]);
      assert forall x :: x in es <==> x in es[..|es| - 1] || x == e by {
        assert es == es[..|es| - 1] + [e];
      }
      rest + (if IsPotentialWall(e) then [e] else [])
  }

  /** The element type: the chosenLabel label if it is non-empty, else the type
      name the layer stands for, else "Unknown Wall". */
  function ElementType(layer: string, chosenLabel: Option<string>): string {
    if chosenLabel.Some? && chosenLabel.value != "" then chosenLabel.value else LayerTypeName(layer)
  }

  /** `layer_to_type_name.get(layer, "Unknown Wall")`. */
  function LayerTypeName(layer: string): string {
    Get(LayerToTypeName(), layer).GetOr(UnknownWall)
  }

  function ElementFor(e: DrawingEntity, texts: seq<TextInfo>): Element {
    var chosenLabel := Choose(texts, DistancesTo(texts, e.points), LegendMapping, AssociationDistanceThreshold).chosen;
    Element(ElementType(e.layer, chosenLabel), e.layer, e.points, e.dxftype, e.dxftype != "LINE" && e.isClosed)
  }

  /** `classified_elements` after the entities `ps`. */
  function Elements(ps: seq<DrawingEntity>, texts: seq<TextInfo>): seq<Element> {
    if ps == [] then []
    else
      var e := ps[|ps| - 1];
      Elements(ps[..|ps| - 1], texts) +
        (if IsPotentialWall(e) && e.points != [] then [ElementFor(e, texts)] else [])
  }

  /** One pass of the entity loop: the element an entity becomes, if any. */
  method ClassifyEntity(entity: DrawingEntity, texts: seq<TextInfo>) returns (element: Option<Element>)
    ensures element == if IsPotentialWall(entity) && entity.points != [] then Some(ElementFor(entity, texts)) else None
  {
    var layer := entity.layer;
    var elementType := LayerTypeName(layer);
    var isClosed := false;
    var coords: seq<Point>;
    if entity.dxftype == "LINE" {
      coords := entity.points;
    } else if entity.dxftype == "LWPOLYLINE" || entity.dxftype == "POLYLINE" {
      coords := entity.points;
      isClosed := entity.isClosed;
    } else {
      return None;
    }
    if coords == [] {
      return None;
    }
    var assignedLabelText := AssociateLabel(texts, coords, LegendMapping, AssociationDistanceThreshold);
    if assignedLabelText.Some? && assignedLabelText.value != "" {
      elementType := assignedLabelText.value;
    }
    element := Some(Element(elementType, layer, coords, entity.dxftype, isClosed));
  }

  /** One more entity adds its element, if it has one. */
  lemma ElementsStep(ps: seq<DrawingEntity>, k: nat, texts: seq<TextInfo>)
    requires k < |ps|
    ensures Elements(ps[..k + 1], texts) ==
      Elements(ps[..k], texts) + (if IsPotentialWall(ps[k]) && ps[k].points != [] then [ElementFor(ps[k], texts)] else [])
  {
    assert ps[..k + 1][..k] == ps[..k];
  }

  /** The entity loop of the script. */
  method ClassifyElements(es: seq<DrawingEntity>, texts: seq<TextInfo>) returns (classifiedElements: seq<Element>)
    ensures classifiedElements == Elements(PotentialWalls(es), texts)
  {
    var potentialWallEntities := PotentialWalls(es);
    classifiedElements := [];
    for k := 0 to |potentialWallEntities|
      invariant classifiedElements == Elements(potentialWallEntities[..k], texts)
    {
      ElementsStep(potentialWallEntities, k, texts);
      var element := ClassifyEntity(potentialWallEntities[k], texts);
      if element.Some? {
        classifiedElements := classifiedElements + [element.value];
      }
    }
    assert potentialWallEntities[..|potentialWallEntities|] == potentialWallEntities;
  }

  /** Every element's type is a legend text or "Unknown Wall". */
  lemma {:induction false} ElementTypesAreLegendTexts(ps: seq<DrawingEntity>, texts: seq<TextInfo>)
    ensures forall el :: el in Elements(ps, texts) ==> HasKey(LegendMapping, el.typeName) || el.typeName == UnknownWall
  {
    if ps != [] {
      ElementTypesAreLegendTexts(ps[..|ps| - 1], texts);
      var e := ps[|ps| - 1];
      var chosenLabel := Choose(texts, DistancesTo(texts, e.points), LegendMapping, AssociationDistanceThreshold).chosen;
      ChooseIsNearest(texts, DistancesTo(texts, e.points), LegendMapping, AssociationDistanceThreshold);
      InvertGivesKeys(LegendMapping, e.layer);
    }
  }

  /** The entities the loop turns into elements: the lines and polylines with
      at least one vertex, in drawing order. */
  function WithVertices(ps: seq<DrawingEntity>): seq<DrawingEntity> {
    if ps == [] then []
    else
      var e := ps[|ps| - 1];
      WithVertices(ps[..|ps| - 1]) + (if IsPotentialWall(e) && e.points != [] then [e] else [])
  }

  /** One element per line or polyline with vertices, in drawing order; every
      other entity, one without coordinates in particular, is skipped. */
  lemma {:induction false} OneElementPerEntity(ps: seq<DrawingEntity>, texts: seq<TextInfo>)
    ensures |Elements(ps, texts)| == |WithVertices(ps)|
    ensures forall i :: 0 <= i < |WithVertices(ps)| ==> Elements(ps, texts)[i] == ElementFor(WithVertices(ps)[i], texts)
  {
    if ps != [] {
      var prefix := ps[..|ps| - 1];
      var e := ps[|ps| - 1];
      OneElementPerEntity(prefix, texts);
      if IsPotentialWall(e) && e.points != [] {
        assert Elements(ps, texts) == Elements(prefix, texts) + [ElementFor(e, texts)];
        assert WithVertices(ps) == WithVertices(prefix) + [e];
        forall i | 0 <= i < |WithVertices(prefix)|
          ensures Elements(ps, texts)[i] == ElementFor(WithVertices(ps)[i], texts)
        {
          assert WithVertices(ps)[i] == WithVertices(prefix)[i];
        }
      } else {
        assert Elements(ps, texts) == Elements(prefix, texts) + [];
        assert WithVertices(ps) == WithVertices(prefix) + [];
      }
    }
  }

  /** The entities kept are exactly the lines and polylines with vertices. */
  lemma {:induction false} WithVerticesMembership(ps: seq<DrawingEntity>, e: DrawingEntity)
    ensures e in WithVertices(ps) <==> e in ps && IsPotentialWall(e) && e.points != []
  {
    if ps != [] {
      var prefix := ps[..|ps| - 1];
      WithVerticesMembership(prefix, e);
      assert ps == prefix + [ps[|ps| - 1]];
    }
  }

  /** An element is produced exactly when some line or polyline with vertices
      yields it. */
  lemma ElementsMembership(ps: seq<DrawingEntity>, texts: seq<TextInfo>, el: Element)
    ensures el in Elements(ps, texts) <==>
      exists e :: e in ps && IsPotentialWall(e) && e.points != [] && el == ElementFor(e, texts)
  {
    OneElementPerEntity(ps, texts);
    var els, ws := Elements(ps, texts), WithVertices(ps);
    if el in els {
      var i :| 0 <= i < |els| && els[i] == el;
      WithVerticesMembership(ps, ws[i]);
    } else {
      forall e | e in ps && IsPotentialWall(e) && e.points != []
        ensures el != ElementFor(e, texts)
      {
        WithVerticesMembership(ps, e);
        var i :| 0 <= i < |ws| && ws[i] == e;
        assert els[i] == ElementFor(e, texts);
      }
    }
  }
}
