/** The loader's wrapper around drawing entities and its wall-layer filter:
    lines and polylines are kept when their upper-cased layer name contains
    one of the upper-cased wall patterns, or else when they are thicker than
    50. */
module DataLoader {
  import opened Common

  /** The attributes of a drawing entity that the filter reads. `None` means
      that reading the attribute fails (`layer`, `text`) or that the entity
      has no such attribute (`thickness`). */
  datatype DxfAttributes = DxfAttributes(layer: Option<string>, thickness: Option<real>, text: Option<string>)

  /** The entity types that carry text. */
  predicate IsText(entityType: string) {
    entityType == "TEXT" || entityType == "MTEXT"
  }

  /** A loaded entity with its type and, for texts, its decoded content. */
  class CADEntity {
    var entityType: string
    var entity: DxfAttributes
    var textContent: Option<string>

    /** Text content is recorded only for TEXT and MTEXT entities, as the
        empty string when reading it fails. */
    constructor (entityType: string, entity: DxfAttributes)
      ensures this.entityType == entityType && this.entity == entity
      ensures !IsText(entityType) ==> textContent.None?
      ensures IsText(entityType) ==> textContent == Some(entity.text.GetOr(""))
    {
      this.entityType := entityType;
      this.entity := entity;
      textContent := None;
      if IsText(entityType) {
        if entity.text.Some? {
          textContent := entity.text;
        } else {
          textContent := Some("");
        }
      }
    }
  }

  /** The loader's entities by category. */
  datatype Categorised = Categorised(
    lines: seq<CADEntity>,
    polylines: seq<CADEntity>,
    arcs: seq<CADEntity>,
    circles: seq<CADEntity>,
    texts: seq<CADEntity>,
    blocks: seq<CADEntity>)

  const DefaultWallLayers: seq<string> := ["WALL", "WALLS", "壁", "W-", "A-WALL"]

  const ThickLineThreshold: real := 50.0

  /** Upper-casing of the ASCII letters; every other character is kept. */
  function UpperChar(c: char): (r: char)
    ensures 'a' <= c <= 'z' ==> r as int == c as int - 32
    ensures !('a' <= c <= 'z') ==> r == c
  {
    if 'a' <= c <= 'z' then (c as int - 32) as char else c
  }

  function Upper(s: string): (r: string)
    ensures |r| == |s|
    ensures forall i :: 0 <= i < |s| ==> r[i] == UpperChar(s[i])
  {
    seq(|s|, i requires 0 <= i < |s| => UpperChar(s[i]))
  }

  /** Upper-casing twice is upper-casing once. */
  lemma UpperIdempotent(s: string)
    ensures Upper(Upper(s)) == Upper(s)
  {
    forall i | 0 <= i < |s|
      ensures Upper(Upper(s))[i] == Upper(s)[i]
    {
      var c := s[i];
      if 'a' <= c <= 'z' {
        assert !('a' <= UpperChar(c) <= 'z');
      }
    }
  }

  /** Python's substring test `needle in hay`; the empty string is in every
      string. */
  predicate Contains(hay: string, needle: string) {
    exists i :: 0 <= i <= |hay| && OccursAt(hay, needle, i)
  }

  predicate OccursAt(hay: string, needle: string, i: int) {
    0 <= i <= |hay| - |needle| && hay[i..i + |needle|] == needle
  }

  /** The upper-cased layer name contains an upper-cased pattern. */
  predicate LayerMatches(layer: string, patterns: seq<string>) {
    exists p :: p in patterns && Contains(Upper(layer), Upper(p))
  }

  /** An entity is kept: its layer can be read, and it matches a pattern or
      else has a thickness above 50. */
  predicate Keep(attrs: DxfAttributes, patterns: seq<string>) {
    attrs.layer.Some? &&
    (LayerMatches(attrs.layer.value, patterns) || (attrs.thickness.Some? && attrs.thickness.value > ThickLineThreshold))
  }

  /** The kept entities of a list, in order. */
  function WallEntities(es: seq<CADEntity>, patterns: seq<string>): seq<CADEntity>
    reads es
  {
    if es == [] then []
    else
      var e := es[|es| - 1];
      WallEntities(es[..|es| - 1], patterns) + (if Keep(e.entity, patterns) then [e] else [])
  }

  /** `extract_wall_entities`: the kept lines, then the kept polylines. */
  method ExtractWallEntities(entities: Categorised, wallLayers: Option<seq<string>>) returns (wallCandidates: seq<CADEntity>)
    ensures
      var patterns := wallLayers.GetOr(DefaultWallLayers);
      wallCandidates == WallEntities(entities.lines, patterns) + WallEntities(entities.polylines, patterns)
  {
    var patterns := if wallLayers.None? then DefaultWallLayers else wallLayers.value;
    var lists := [entities.lines, entities.polylines];
    wallCandidates := [];
    for n := 0 to |lists|
      invariant wallCandidates == if n == 0 then [] else if n == 1 then WallEntities(lists[0], patterns)
                                  else WallEntities(lists[0], patterns) + WallEntities(lists[1], patterns)
    {
      wallCandidates := AppendWallEntities(wallCandidates, lists[n], patterns);
    }
  }

  /** The inner loop of `extract_wall_entities`: the kept entities of one
      list, appended to those found so far. */
  method AppendWallEntities(found: seq<CADEntity>, entityList: seq<CADEntity>, patterns: seq<string>)
    returns (wallCandidates: seq<CADEntity>)
    ensures wallCandidates == found + WallEntities(entityList, patterns)
  {
    wallCandidates := found;
    for k := 0 to |entityList|
      invariant wallCandidates == found + WallEntities(entityList[..k], patterns)
    {
      var cadEntity := entityList[k];
      var entity := cadEntity.entity;
      assert entityList[..k + 1][..k] == entityList[..k];
      if entity.layer.None? {
        // reading the layer raises: the entity is skipped
        continue;
      }
      var layerName := Upper(entity.layer.value);
      if exists p :: p in patterns && Contains(layerName, Upper(p)) {
        wallCandidates := wallCandidates + [cadEntity];
      } else if entity.thickness.Some? && entity.thickness.value > ThickLineThreshold {
        wallCandidates := wallCandidates + [cadEntity];
      }
    }
    assert entityList[..|entityList|] == entityList;
  }

  /** An entity is returned exactly when it is in the list and kept. */
  lemma {:induction false} WallEntitiesMembership(es: seq<CADEntity>, patterns: seq<string>, e: CADEntity)
    ensures e in WallEntities(es, patterns) <==> e in es && Keep(e.entity, patterns)
  {
    if es != [] {
      WallEntitiesMembership(es[..|es| - 1], patterns, e);
      assert es == es[..|es| - 1] + [es[|es| - 1]];
    }
  }

  /** Only lines and polylines are returned: arcs, circles, texts and blocks
      never are, unless the same object is also a line or a polyline. */
  lemma OnlyLinesAndPolylines(entities: Categorised, patterns: seq<string>, e: CADEntity)
    requires e in WallEntities(entities.lines, patterns) + WallEntities(entities.polylines, patterns)
    ensures e in entities.lines || e in entities.polylines
    ensures Keep(e.entity, patterns)
  {
    WallEntitiesMembership(entities.lines, patterns, e);
    WallEntitiesMembership(entities.polylines, patterns, e);
  }

  /** The layer test ignores the case of the layer name. */
  lemma LayerCaseIgnored(layer: string, patterns: seq<string>)
    ensures LayerMatches(Upper(layer), patterns) == LayerMatches(layer, patterns)
  {
    UpperIdempotent(layer);
  }

  /** With the default patterns, a layer named "a-wall-01" is a wall layer; a
      line on layer "0" is kept only when thicker than 50. */
  lemma DefaultPatternScenarios(t: real)
    ensures Keep(DxfAttributes(Some("a-wall-01"), None, None), DefaultWallLayers)
    ensures Keep(DxfAttributes(Some("0"), Some(t), None), DefaultWallLayers) <==> t > 50.0
  {
    var u := Upper("a-wall-01");
    assert u == "A-WALL-01";
    assert Upper("WALL") == "WALL";
    assert OccursAt(u, Upper("WALL"), 2);
    assert "WALL" in DefaultWallLayers;
    forall p | p in DefaultWallLayers
      ensures !Contains(Upper("0"), Upper(p))
    {
      if p == "壁" {
        assert Upper(p) == "壁";
        assert Upper("0") == "0";
        assert "0"[0..1] == "0" && "0"[0] != "壁"[0];
      } else {
        assert |Upper(p)| >= 2;
      }
    }
  }
}
