/** The wall classifier: each candidate wall is given a type by the first stage
    of a four-stage cascade that applies — its text label, a layer-name pattern,
    a thickness range, or the fallback "Unknown". The legend is an
    insertion-ordered dictionary from rule key to rule. */
module WallClassifier {
  import opened Common
  import opened Planar
  import opened GeometryUtils

  /** One legend entry. `Some` marks a key that is present in the entry's
      dictionary: "name", "layer_pattern", "thickness_min", "thickness_max",
      "thickness". */
  datatype Rule = Rule(
    name: Option<string>,
    layerPattern: Option<string>,
    thicknessMin: Option<real>,
    thicknessMax: Option<real>,
    thickness: Option<real>)

  /** The legend dictionary, as its items in order. */
  type Legend = seq<(string, Rule)>

  /** The regular-expression engine: whether a pattern compiles, and whether
      `re.match(pattern, text, re.IGNORECASE)` succeeds. */
  datatype Regex = Regex(compiles: string -> bool, matchesIgnoreCase: (string, string) -> bool)

  /** Number rendering in the assigned-rule texts: `f"{x:.2f}"` and `f"{x}"`. */
  datatype Formatter = Formatter(fixed2: real -> string, repr: real -> string)

  /** What the classifier consults besides the wall and the legend. */
  datatype Env = Env(ops: Ops, regex: Regex, format: Formatter)

  /** All fields of a wall at one moment. `geometry` is `None` for a wall built
      without one. */
  datatype WallState = WallState(
    id: string,
    geometry: Option<Geom>,
    rawLabel: Option<string>,
    layerName: string,
    typeName: Option<string>,
    assignedRule: Option<string>,
    thickness: Option<real>)

  /** A detected wall; the classifier fills in its type, rule and thickness. */
  class Wall {
    var id: string
    var geometry: Option<Geom>
    var rawLabel: Option<string>
    var layerName: string
    var typeName: Option<string>
    var assignedRule: Option<string>
    var thickness: Option<real>

    function State(): WallState
      reads this
    {
      WallState(id, geometry, rawLabel, layerName, typeName, assignedRule, thickness)
    }

    /** The dataclass constructor with the defaulted fields left at `None`. */
    constructor (id: string, geometry: Option<Geom>, rawLabel: Option<string>, layerName: string)
      ensures State() == WallState(id, geometry, rawLabel, layerName, None, None, None)
    {
      this.id := id;
      this.geometry := geometry;
      this.rawLabel := rawLabel;
      this.layerName := layerName;
      typeName := None;
      assignedRule := None;
      thickness := None;
    }
  }

  // ---------------------------------------------------------------------------
  // The cascade, stage by stage
  // ---------------------------------------------------------------------------

  /** Truthiness of the geometry: present and not empty. */
  predicate HasGeometry(g: Option<Geom>) {
    g.Some? && !IsEmpty(g.value)
  }

  /** The thickness after "compute it if it is missing and there is a geometry". */
  function ThicknessOrComputed(s: WallState, ops: Ops): (r: Option<real>)
    requires Sound(ops)
    ensures s.thickness.Some? ==> r == s.thickness
    ensures r.Some? && s.thickness.None? ==> HasGeometry(s.geometry) && r.value >= 0.0
  {
    if s.thickness.None? && HasGeometry(s.geometry) then ComputeThickness(s.geometry.value, AreaOverLength, ops)
    else s.thickness
  }

  /** Stage 1 applies: the raw label is a non-empty key of the legend. */
  function LabelRule(s: WallState, legend: Legend): (r: Option<Rule>)
    ensures r.Some? <==> s.rawLabel.Some? && s.rawLabel.value != "" && HasKey(legend, s.rawLabel.value)
  {
    if s.rawLabel.Some? && s.rawLabel.value != "" then Get(legend, s.rawLabel.value) else None
  }

  function LabelStage(s: WallState, rule: Rule, ops: Ops): WallState
    requires Sound(ops) && s.rawLabel.Some?
  {
    s.(typeName := Some(rule.name.GetOr("Unknown type for label")),
       assignedRule := Some("label: " + s.rawLabel.value),
       thickness := if s.thickness.None? && rule.thickness.Some? then rule.thickness else ThicknessOrComputed(s, ops))
  }

  /** A rule of stage 2 applies: it has a layer pattern that compiles and
      matches the start of the layer name, ignoring case. */
  predicate PatternApplies(rule: Rule, layer: string, regex: Regex) {
    rule.layerPattern.Some? && regex.compiles(rule.layerPattern.value) &&
    regex.matchesIgnoreCase(rule.layerPattern.value, layer)
  }

  /** The position of the first legend rule whose pattern applies. */
  function FirstLayerRule(legend: Legend, layer: string, regex: Regex): (r: Option<nat>)
    ensures r.Some? ==> r.value < |legend| && PatternApplies(legend[r.value].1, layer, regex)
    ensures forall j :: 0 <= j < |legend| && (r.None? || j < r.value) ==> !PatternApplies(legend[j].1, layer, regex)
  {
    if legend == [] then None
    else if PatternApplies(legend[0].1, layer, regex) then Some(0)
    else
      match FirstLayerRule(legend[1..], layer, regex)
      case None => None
      case Some(k) => Some(k + 1)
  }

  function LayerStage(s: WallState, rule: Rule, ops: Ops): WallState
    requires Sound(ops) && rule.layerPattern.Some?
  {
    var pattern := rule.layerPattern.value;
    s.(typeName := Some(rule.name.GetOr("Unknown type for layer pattern " + pattern)),
       assignedRule := Some("layer: " + s.layerName + " (matches " + pattern + ")"),
       thickness := ThicknessOrComputed(s, ops))
  }

  /** A rule of stage 3 applies: it names a minimum or a maximum, and the
      thickness lies in [min - tol, max + tol), a missing bound being no bound. */
  predicate ThicknessApplies(rule: Rule, t: real, tol: real) {
    && (rule.thicknessMin.Some? || rule.thicknessMax.Some?)
    && (rule.thicknessMin.Some? ==> t >= rule.thicknessMin.value - tol)
    && (rule.thicknessMax.Some? ==> t < rule.thicknessMax.value + tol)
  }

  /** The position of the first legend rule whose thickness range applies. */
  function FirstThicknessRule(legend: Legend, t: real, tol: real): (r: Option<nat>)
    ensures r.Some? ==> r.value < |legend| && ThicknessApplies(legend[r.value].1, t, tol)
    ensures forall j :: 0 <= j < |legend| && (r.None? || j < r.value) ==> !ThicknessApplies(legend[j].1, t, tol)
  {
    if legend == [] then None
    else if ThicknessApplies(legend[0].1, t, tol) then Some(0)
    else
      match FirstThicknessRule(legend[1..], t, tol)
      case None => None
      case Some(k) => Some(k + 1)
  }

  /** A bound as Python prints it, a missing one being an infinity. */
  function BoundText(b: Option<real>, missing: string, format: Formatter): string {
    if b.Some? then format.repr(b.value) else missing
  }

  function ThicknessStage(s: WallState, t: real, rule: Rule, format: Formatter): WallState {
    s.(typeName := Some(rule.name.GetOr("Unknown type for thickness " + format.repr(t))),
       assignedRule := Some("thickness: " + format.fixed2(t) + " (range " +
                            BoundText(rule.thicknessMin, "-inf", format) + "-" +
                            BoundText(rule.thicknessMax, "inf", format) + ")"),
       thickness := Some(t))
  }

  /** The whole cascade for one wall: its state after `classify_walls` has
      visited it once. */
  function Classify(s: WallState, legend: Legend, tol: real, env: Env): (r: WallState)
    requires Sound(env.ops)
    ensures r.id == s.id && r.geometry == s.geometry && r.rawLabel == s.rawLabel && r.layerName == s.layerName
    ensures r.typeName.Some? && r.assignedRule.Some?
    ensures s.thickness.Some? ==> r.thickness == s.thickness
  {
    match LabelRule(s, legend)
    case Some(rule) => LabelStage(s, rule, env.ops)
    case None =>
      match FirstLayerRule(legend, s.layerName, env.regex)
      case Some(i) => LayerStage(s, legend[i].1, env.ops)
      case None =>
        var t := ThicknessOrComputed(s, env.ops);
        if t.Some? && FirstThicknessRule(legend, t.value, tol).Some? then
          ThicknessStage(s, t.value, legend[FirstThicknessRule(legend, t.value, tol).value].1, env.format)
        else
          s.(typeName := Some("Unknown"), assignedRule := Some("unclassified"), thickness := t)
  }

  // ---------------------------------------------------------------------------
  // The classifier itself
  // ---------------------------------------------------------------------------

  /** Stage 1 of the loop body of `classify_walls`. */
  method ApplyLabelRule(wall: Wall, legend: Legend, env: Env) returns (classified: bool)
    requires Sound(env.ops)
    modifies wall
    ensures classified <==> LabelRule(old(wall.State()), legend).Some?
    ensures classified ==> wall.State() == LabelStage(old(wall.State()), LabelRule(old(wall.State()), legend).value, env.ops)
    ensures !classified ==> wall.State() == old(wall.State())
  {
    classified := false;
    if wall.rawLabel.Some? && wall.rawLabel.value != "" && HasKey(legend, wall.rawLabel.value) {
      var rule := Get(legend, wall.rawLabel.value).value;
      wall.typeName := Some(rule.name.GetOr("Unknown type for label"));
      wall.assignedRule := Some("label: " + wall.rawLabel.value);
      classified := true;
      if wall.thickness.None? && rule.thickness.Some? {
        wall.thickness := rule.thickness;
      } else if wall.thickness.None? {
        if HasGeometry(wall.geometry) {
          wall.thickness := ComputeThickness(wall.geometry.value, AreaOverLength, env.ops);
        }
      }
    }
  }

  /** Stage 2 of the loop body of `classify_walls`. */
  method ApplyLayerRule(wall: Wall, legend: Legend, env: Env) returns (classified: bool)
    requires Sound(env.ops)
    modifies wall
    ensures classified <==> FirstLayerRule(legend, old(wall.layerName), env.regex).Some?
    ensures classified ==>
      wall.State() == LayerStage(old(wall.State()), legend[FirstLayerRule(legend, old(wall.layerName), env.regex).value].1, env.ops)
    ensures !classified ==> wall.State() == old(wall.State())
  {
    classified := false;
    var i := 0;
    while i < |legend|
      invariant 0 <= i <= |legend|
      invariant wall.State() == old(wall.State())
      invariant forall j :: 0 <= j < i ==> !PatternApplies(legend[j].1, wall.layerName, env.regex)
    {
      var rule := legend[i].1;
      if rule.layerPattern.Some? {
        var pattern := rule.layerPattern.value;
        // a pattern that does not compile is reported and skipped
        if env.regex.compiles(pattern) && env.regex.matchesIgnoreCase(pattern, wall.layerName) {
          assert FirstLayerRule(legend, wall.layerName, env.regex) == Some(i);
          wall.typeName := Some(rule.name.GetOr("Unknown type for layer pattern " + pattern));
          wall.assignedRule := Some("layer: " + wall.layerName + " (matches " + pattern + ")");
          classified := true;
          if wall.thickness.None? && HasGeometry(wall.geometry) {
            wall.thickness := ComputeThickness(wall.geometry.value, AreaOverLength, env.ops);
          }
          return;
        }
      }
      i := i + 1;
    }
  }

  /** Stage 3 of the loop body of `classify_walls`, on a wall whose thickness
      has been computed where it could be. */
  method ApplyThicknessRule(wall: Wall, legend: Legend, tol: real, env: Env) returns (classified: bool)
    modifies wall
    ensures classified <==>
      old(wall.thickness).Some? && FirstThicknessRule(legend, old(wall.thickness).value, tol).Some?
    ensures classified ==>
      var t := old(wall.thickness).value;
      wall.State() == ThicknessStage(old(wall.State()), t, legend[FirstThicknessRule(legend, t, tol).value].1, env.format)
    ensures !classified ==> wall.State() == old(wall.State())
  {
    classified := false;
    if wall.thickness.Some? {
      var t := wall.thickness.value;
      var i := 0;
      while i < |legend|
        invariant 0 <= i <= |legend|
        invariant wall.State() == old(wall.State())
        invariant forall j :: 0 <= j < i ==> !ThicknessApplies(legend[j].1, t, tol)
      {
        var rule := legend[i].1;
        var hasMin := rule.thicknessMin.Some?;
        var hasMax := rule.thicknessMax.Some?;
        if hasMin || hasMax {
          var minCheck := if hasMin then t >= rule.thicknessMin.value - tol else true;
          var maxCheck := if hasMax then t < rule.thicknessMax.value + tol else true;
          if minCheck && maxCheck {
            assert FirstThicknessRule(legend, t, tol) == Some(i);
            wall.typeName := Some(rule.name.GetOr("Unknown type for thickness " + env.format.repr(t)));
            var minText := if hasMin then env.format.repr(rule.thicknessMin.value) else "-inf";
            var maxText := if hasMax then env.format.repr(rule.thicknessMax.value) else "inf";
            wall.assignedRule := Some("thickness: " + env.format.fixed2(t) + " (range " + minText + "-" + maxText + ")");
            classified := true;
            return;
          }
        }
        i := i + 1;
      }
    }
  }

  /** One pass of the loop body of `classify_walls` over one wall. */
  method ClassifyOne(wall: Wall, legend: Legend, tol: real, env: Env)
    requires Sound(env.ops)
    modifies wall
    ensures wall.State() == Classify(old(wall.State()), legend, tol, env)
  {
    var classified := ApplyLabelRule(wall, legend, env);
    if !classified {
      classified := ApplyLayerRule(wall, legend, env);
    }
    if !classified {
      if wall.thickness.None? && HasGeometry(wall.geometry) {
        wall.thickness := ComputeThickness(wall.geometry.value, AreaOverLength, env.ops);
      }
      classified := ApplyThicknessRule(wall, legend, tol, env);
    }
    // 4. nothing applied
    if !classified {
      wall.typeName := Some("Unknown");
      wall.assignedRule := Some("unclassified");
      if wall.thickness.None? && HasGeometry(wall.geometry) {
        wall.thickness := ComputeThickness(wall.geometry.value, AreaOverLength, env.ops);
      }
    }
  }

  /** `classify_walls`: every candidate is classified in place and the same
      list is returned. A wall listed twice is classified twice, which leaves
      it as classifying it once does (`ClassifyIdempotent`). */
  method ClassifyWalls(candidates: seq<Wall>, legend: Legend, tol: real, env: Env) returns (r: seq<Wall>)
    requires Sound(env.ops)
    modifies set w | w in candidates
    ensures r == candidates
    ensures forall w :: w in candidates ==> w.State() == Classify(old(w.State()), legend, tol, env)
  {
    for i := 0 to |candidates|
      invariant forall w :: w in candidates ==>
        w.State() == if w in candidates[..i] then Classify(old(w.State()), legend, tol, env) else old(w.State())
    {
      var wall := candidates[i];
      ghost var before := wall.State();
      ClassifyOne(wall, legend, tol, env);
      if wall in candidates[..i] {
        ClassifyIdempotent(old(wall.State()), legend, tol, env);
      }
      assert candidates[..i + 1] == candidates[..i] + [wall];
    }
    assert candidates[..|candidates|] == candidates;
    r := candidates;
  }

  // ---------------------------------------------------------------------------
  // What the cascade promises
  // ---------------------------------------------------------------------------

  /** Classifying a classified wall changes nothing: every stage's test reads
      only fields the cascade does not change, and a thickness once set stays. */
  lemma ClassifyIdempotent(s: WallState, legend: Legend, tol: real, env: Env)
    requires Sound(env.ops)
    ensures Classify(Classify(s, legend, tol, env), legend, tol, env) == Classify(s, legend, tol, env)
  {
    var r := Classify(s, legend, tol, env);
    assert LabelRule(r, legend) == LabelRule(s, legend);
    if LabelRule(s, legend).None? && FirstLayerRule(legend, s.layerName, env.regex).None? {
      assert ThicknessOrComputed(r, env.ops) == ThicknessOrComputed(s, env.ops);
    }
  }

  /** The rule is recorded as a label rule exactly when the raw label is a
      non-empty key of the legend. */
  lemma LabelStageIff(s: WallState, legend: Legend, tol: real, env: Env)
    requires Sound(env.ops)
    ensures
      var r := Classify(s, legend, tol, env);
      (|r.assignedRule.value| >= 7 && r.assignedRule.value[..7] == "label: ") <==>
      (s.rawLabel.Some? && s.rawLabel.value != "" && HasKey(legend, s.rawLabel.value))
  {
    var r := Classify(s, legend, tol, env);
    var a := r.assignedRule.value;
    if LabelRule(s, legend).None? {
      if FirstLayerRule(legend, s.layerName, env.regex).Some? {
        assert a[2] == 'y';
      } else if a != "unclassified" {
        assert a[0] == 't';
      } else {
        assert a[0] == 'u';
      }
    }
  }

  /** The first rule that applies is found wherever it sits. */
  lemma FirstLayerRuleAt(legend: Legend, layer: string, regex: Regex, i: nat)
    requires i < |legend| && PatternApplies(legend[i].1, layer, regex)
    requires forall j :: 0 <= j < i ==> !PatternApplies(legend[j].1, layer, regex)
    ensures FirstLayerRule(legend, layer, regex) == Some(i)
  {}

  lemma FirstThicknessRuleAt(legend: Legend, t: real, tol: real, i: nat)
    requires i < |legend| && ThicknessApplies(legend[i].1, t, tol)
    requires forall j :: 0 <= j < i ==> !ThicknessApplies(legend[j].1, t, tol)
    ensures FirstThicknessRule(legend, t, tol) == Some(i)
  {}

  /** A wall reaching the layer stage takes the first rule, in legend order,
      whose pattern compiles and matches; rules whose pattern fails to compile
      are passed over. */
  lemma LayerStageTakesFirstMatch(s: WallState, legend: Legend, tol: real, env: Env, i: nat)
    requires Sound(env.ops)
    requires LabelRule(s, legend).None?
    requires i < |legend| && PatternApplies(legend[i].1, s.layerName, env.regex)
    requires forall j :: 0 <= j < i ==> !PatternApplies(legend[j].1, s.layerName, env.regex)
    ensures
      var p := legend[i].1.layerPattern.value;
      Classify(s, legend, tol, env).assignedRule == Some("layer: " + s.layerName + " (matches " + p + ")")
    ensures Classify(s, legend, tol, env).typeName ==
      Some(legend[i].1.name.GetOr("Unknown type for layer pattern " + legend[i].1.layerPattern.value))
  {
    FirstLayerRuleAt(legend, s.layerName, env.regex, i);
  }

  /** A wall that reaches the thickness stage takes the first rule, in legend
      order, whose range [min - tol, max + tol) holds its thickness. */
  lemma ThicknessStageTakesFirstMatch(s: WallState, legend: Legend, tol: real, env: Env, t: real, i: nat)
    requires Sound(env.ops)
    requires LabelRule(s, legend).None? && FirstLayerRule(legend, s.layerName, env.regex).None?
    requires ThicknessOrComputed(s, env.ops) == Some(t)
    requires i < |legend| && ThicknessApplies(legend[i].1, t, tol)
    requires forall j :: 0 <= j < i ==> !ThicknessApplies(legend[j].1, t, tol)
    ensures Classify(s, legend, tol, env).typeName ==
      Some(legend[i].1.name.GetOr("Unknown type for thickness " + env.format.repr(t)))
    ensures Classify(s, legend, tol, env).thickness == Some(t)
    ensures Classify(s, legend, tol, env) == ThicknessStage(s, t, legend[i].1, env.format)
  {
    FirstThicknessRuleAt(legend, t, tol, i);
  }

  /** Without a label rule, a matching layer pattern or a thickness (none was
      set and none can be computed: no geometry, a non-polygon, an invalid
      polygon or a zero perimeter), a wall is "Unknown" and its rule is
      "unclassified". */
  lemma NoThicknessMeansUnknown(s: WallState, legend: Legend, tol: real, env: Env)
    requires Sound(env.ops)
    requires LabelRule(s, legend).None?
    requires forall j :: 0 <= j < |legend| ==> !PatternApplies(legend[j].1, s.layerName, env.regex)
    requires ThicknessOrComputed(s, env.ops).None?
    ensures Classify(s, legend, tol, env).typeName == Some("Unknown")
    ensures Classify(s, legend, tol, env).assignedRule == Some("unclassified")
    ensures Classify(s, legend, tol, env).thickness.None?
  {
  }

  /** A wall without a label on layer "WALL_PARTITION_2", against a legend
      whose only rule is the pattern "^WALL_PARTITION.*" (which the regular
      expression engine accepts and matches against that layer), is typed by
      the layer stage and never reaches the thickness or default stages. */
  lemma PartitionLayerScenario(s: WallState, env: Env)
    requires Sound(env.ops)
    requires s.rawLabel.None? && s.layerName == "WALL_PARTITION_2"
    requires env.regex.compiles("^WALL_PARTITION.*")
    requires env.regex.matchesIgnoreCase("^WALL_PARTITION.*", "WALL_PARTITION_2")
    ensures
      var legend := [("PartitionRuleLayer", Rule(None, Some("^WALL_PARTITION.*"), None, None, None))];
      var r := Classify(s, legend, 1.0, env);
      && r == LayerStage(s, legend[0].1, env.ops)
      && r.assignedRule == Some("layer: " + "WALL_PARTITION_2" + " (matches " + "^WALL_PARTITION.*" + ")")
      && r.typeName == Some("Unknown type for layer pattern " + "^WALL_PARTITION.*")
  {
    var legend := [("PartitionRuleLayer", Rule(None, Some("^WALL_PARTITION.*"), None, None, None))];
    LayerStageTakesFirstMatch(s, legend, 1.0, env, 0);
  }

  /** The upper bound is exclusive: with no tolerance, a thickness equal to a
      rule's only bound, its maximum, does not select that rule. */
  lemma UpperBoundExclusive(rule: Rule, t: real)
    requires rule.thicknessMin.None? && rule.thicknessMax == Some(t)
    ensures !ThicknessApplies(rule, t, 0.0)
    ensures ThicknessApplies(rule, t, 0.5)
  {}

  /** An unlabelled wall whose thickness is known or computed as `t`, against
      a legend whose only rule is the range 1 to 3 at tolerance 1, is typed by
      that rule whenever 0 <= t < 4, with the range recorded as the rule's
      bounds. */
  lemma SingleRangeClassifies(s: WallState, name: string, env: Env, t: real)
    requires Sound(env.ops)
    requires s.rawLabel.None? && ThicknessOrComputed(s, env.ops) == Some(t)
    requires 0.0 <= t < 4.0
    ensures
      var legend := [("ShearWall", Rule(Some(name), None, Some(1.0), Some(3.0), None))];
      var r := Classify(s, legend, 1.0, env);
      && r.typeName == Some(name)
      && r.thickness == Some(t)
      && r.assignedRule == Some("thickness: " + env.format.fixed2(t) + " (range " +
                                env.format.repr(1.0) + "-" + env.format.repr(3.0) + ")")
  {
    var rule := Rule(Some(name), None, Some(1.0), Some(3.0), None);
    var legend := [("ShearWall", rule)];
    assert LabelRule(s, legend).None?;
    assert FirstLayerRule(legend, s.layerName, env.regex).None?;
    ThicknessStageTakesFirstMatch(s, legend, 1.0, env, t, 0);
  }

  /** The worked example of a straight wall: a 10 by 2 rectangle with no label
      on a layer no pattern matches, against a legend whose only rule is the
      range 1 to 3, is typed by that rule, with thickness 2 and the range
      recorded as the rule's bounds. */
  lemma TenByTwoWallClassified(s: WallState, name: string, env: Env)
    requires Sound(env.ops)
    requires s.geometry == Some(AxisRectangle(10.0, 2.0))
    requires env.ops.isValid(s.geometry.value) && env.ops.length(s.geometry.value) == 24.0
    requires env.ops.minimumRotatedRectangle(s.geometry.value) == s.geometry.value
    requires s.rawLabel.None? && s.thickness.None?
    ensures
      var legend := [("ShearWall", Rule(Some(name), None, Some(1.0), Some(3.0), None))];
      var r := Classify(s, legend, 1.0, env);
      && r.typeName == Some(name)
      && r.thickness == Some(2.0)
      && r.assignedRule == Some("thickness: " + env.format.fixed2(2.0) + " (range " +
                                env.format.repr(1.0) + "-" + env.format.repr(3.0) + ")")
  {
    TenByTwoWallThickness(s.geometry.value, env.ops);
    assert HasGeometry(s.geometry);
    SingleRangeClassifies(s, name, env, 2.0);
  }
}
