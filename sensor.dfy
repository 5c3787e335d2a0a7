/** The sensor actor: its two line batches, its render configuration, the four one-shot
    flags of the persistent layers, the draw helpers, and the whole PostPhysTick pass. */
module Sensor {
  import opened Wrappers
  import opened Geometry
  import opened RenderConfig
  import opened Classifier
  import opened Components
  import opened RoadSplines
  import opened Crosswalks
  import opened Stencils

  /** A line batch component: the primitives it currently holds, in drawing order. */
  class LineBatch {
    var primitives: seq<Primitive>

    constructor ()
      ensures primitives == []
    {
      primitives := [];
    }

    method Flush()
      modifies this
      ensures primitives == []
    {
      primitives := [];
    }

    /** DrawLine, DrawSolidBox, DrawMesh and the capsule: one primitive appended. */
    method Draw(p: Primitive)
      modifies this
      ensures primitives == old(primitives) + [p]
    {
      primitives := primitives + [p];
    }

    method DrawLines(ps: seq<Primitive>)
      modifies this
      ensures primitives == old(primitives) + ps
    {
      primitives := primitives + ps;
    }
  }

  /** The stop box of a traffic light: the box collider's location, scaled extent and
      its forward and right unit vectors. */
  datatype StopBox = StopBox(location: Vec, scaledExtent: Vec, forward: Vec, right: Vec)

  /** How far every stop line is pushed to the side of its box. */
  const StopLineSideShift: real := 710.0

  /** The height below zero at which stop lines are drawn: half their thickness plus 2. */
  function StopLineDepth(cfg: RenderConfig): real
  {
    cfg.stopLineThickness * 0.5 + 2.0
  }

  /** The stop line of one traffic light. */
  function StopLine(box: StopBox, cfg: RenderConfig): Primitive
  {
    var basePos := Vec(box.location.x, box.location.y, -StopLineDepth(cfg));
    var side := Scale(StopLineSideShift, box.right);
    var start := Sub(Add(basePos, Scale(-box.scaledExtent.x, box.forward)), side);
    var end := Sub(Add(basePos, Scale(box.scaledExtent.x, box.forward)), side);
    Line(At(start), At(end), cfg.waitLinesColor, SdpgWorld, cfg.stopLineThickness)
  }

  /** The stop lines of `boxes`, in order. */
  function StopLines(boxes: seq<StopBox>, cfg: RenderConfig): (lines: seq<Primitive>)
    ensures |lines| == |boxes|
    ensures forall i :: 0 <= i < |boxes| ==> lines[i] == StopLine(boxes[i], cfg)
  {
    if |boxes| == 0 then [] else StopLines(boxes[..|boxes| - 1], cfg) + [StopLine(boxes[|boxes| - 1], cfg)]
  }

  /** A stop line runs along the box's forward axis for twice its x extent, with its
      midpoint 710 units against the right axis from the box, below the road by the
      stop-line depth, in the wait-lines colour and the stop-line thickness. */
  lemma StopLineGeometry(box: StopBox, cfg: RenderConfig)
    ensures var l := StopLine(box, cfg);
      var base := Vec(box.location.x, box.location.y, -(cfg.stopLineThickness * 0.5 + 2.0));
      l.Line? && l.start.At? && l.end.At? &&
      Sub(l.end.v, l.start.v) == Scale(2.0 * box.scaledExtent.x, box.forward) &&
      Scale(0.5, Add(l.start.v, l.end.v)) == Sub(base, Scale(710.0, box.right)) &&
      l.color == cfg.waitLinesColor && l.thickness == cfg.stopLineThickness && l.depthPriority == 0
  {
  }

  /** What the map of the game mode offers: the crosswalk point list and the stencils
      (a missing stencil is a null entry). */
  datatype RoadMap = RoadMap(crosswalkPoints: seq<Vec>, stencils: seq<Option<Stencil>>)

  /** What one tick reads from the world: the actor registry, the mesh components,
      this sensor's ignored vehicle ids, the traffic lights' stop boxes, the road-spline
      actors, and the map when the game mode is a CARLA game mode. */
  datatype TickInput = TickInput(
    registry: seq<RegistryEntry>, components: seq<MeshComponent>, ignoredVehicles: set<int>,
    trafficLights: seq<StopBox>, roadSplines: seq<RoadSpline>, gameMode: Option<RoadMap>)

  /** The four added_persisted_* flags. */
  datatype Flags = Flags(stopLines: bool, routeLines: bool, crosswalks: bool, stencils: bool)

  const InitialFlags: Flags := Flags(false, false, false, false)

  /** The flags after one tick: stop lines are done after the first tick whatever it
      found, route lines once some road spline exists, crosswalks and stencils once the
      map is reachable. */
  function NextFlags(f: Flags, input: TickInput): Flags
  {
    Flags(true,
          f.routeLines || |input.roadSplines| > 0,
          f.crosswalks || input.gameMode.Some?,
          f.stencils || input.gameMode.Some?)
  }

  /** The four persistent layers. */
  datatype Layer = StopLayer | RouteLayer | CrosswalkLayer | StencilLayer

  /** What one tick adds to the persistent batch for one layer, given the flags it starts with. */
  function LayerAdditions(layer: Layer, f: Flags, input: TickInput, cfg: RenderConfig): seq<Primitive>
  {
    match layer
    case StopLayer => if !f.stopLines then StopLines(input.trafficLights, cfg) else []
    case RouteLayer => if !f.routeLines then RouteLines(input.roadSplines, cfg) else []
    case CrosswalkLayer =>
      if !f.crosswalks && input.gameMode.Some?
      then CrosswalkMeshes(input.gameMode.value.crosswalkPoints, cfg.crosswalksColor) else []
    case StencilLayer =>
      if !f.stencils && input.gameMode.Some?
      then StencilMeshes(input.gameMode.value.stencils, cfg.roadMarkingsColor) else []
  }

  /** What one tick adds to the persistent batch: the layers in the order the tick draws them. */
  function PersistentAdditions(f: Flags, input: TickInput, cfg: RenderConfig): seq<Primitive>
  {
    LayerAdditions(StopLayer, f, input, cfg) + LayerAdditions(RouteLayer, f, input, cfg) +
    LayerAdditions(CrosswalkLayer, f, input, cfg) + LayerAdditions(StencilLayer, f, input, cfg)
  }

  /** The flags of a layer. */
  function LayerDone(layer: Layer, f: Flags): bool
  {
    match layer
    case StopLayer => f.stopLines
    case RouteLayer => f.routeLines
    case CrosswalkLayer => f.crosswalks
    case StencilLayer => f.stencils
  }

  /** A layer whose flag is set adds nothing, and a set flag stays set. */
  lemma DoneLayerAddsNothing(layer: Layer, f: Flags, input: TickInput, cfg: RenderConfig)
    requires LayerDone(layer, f)
    ensures LayerAdditions(layer, f, input, cfg) == []
    ensures LayerDone(layer, NextFlags(f, input))
  {
  }

  /** The flags after a run of ticks. */
  function FlagsAfter(f: Flags, inputs: seq<TickInput>): Flags
  {
    if |inputs| == 0 then f else NextFlags(FlagsAfter(f, inputs[..|inputs| - 1]), inputs[|inputs| - 1])
  }

  /** Everything a run of ticks adds to one layer. */
  function LayerRun(layer: Layer, f: Flags, inputs: seq<TickInput>, cfg: RenderConfig): seq<Primitive>
  {
    if |inputs| == 0 then []
    else
      var prefix := inputs[..|inputs| - 1];
      LayerRun(layer, f, prefix, cfg) + LayerAdditions(layer, FlagsAfter(f, prefix), inputs[|inputs| - 1], cfg)
  }

  /** Over any run from a fresh sensor, the stop lines are those of the first tick's
      traffic lights and nothing more: a first tick without lights means no stop lines ever. */
  lemma {:induction false} StopLinesOnlyOnFirstTick(inputs: seq<TickInput>, cfg: RenderConfig)
    ensures LayerRun(StopLayer, InitialFlags, inputs, cfg) ==
      if |inputs| == 0 then [] else StopLines(inputs[0].trafficLights, cfg)
  {
    if |inputs| > 1 {
      var prefix := inputs[..|inputs| - 1];
      StopLinesOnlyOnFirstTick(prefix, cfg);
      assert prefix[..|prefix| - 1] == inputs[..|inputs| - 2];
      assert FlagsAfter(InitialFlags, prefix).stopLines;
      assert prefix[0] == inputs[0];
    } else if |inputs| == 1 {
      assert inputs[..0] == [];
    }
  }

  /** After a run, the route-line flag is set exactly when some tick saw a road spline. */
  lemma {:induction false} RouteFlagAfterRun(f: Flags, inputs: seq<TickInput>)
    ensures FlagsAfter(f, inputs).routeLines <==>
      f.routeLines || exists k :: 0 <= k < |inputs| && |inputs[k].roadSplines| > 0
  {
    if |inputs| > 0 {
      var prefix := inputs[..|inputs| - 1];
      RouteFlagAfterRun(f, prefix);
      if exists k :: 0 <= k < |prefix| && |prefix[k].roadSplines| > 0 {
        var k :| 0 <= k < |prefix| && |prefix[k].roadSplines| > 0;
        assert inputs[k] == prefix[k];
      }
      if exists k :: 0 <= k < |inputs| && |inputs[k].roadSplines| > 0 {
        var k :| 0 <= k < |inputs| && |inputs[k].roadSplines| > 0;
        if k < |prefix| {
          assert prefix[k] == inputs[k];
        }
      }
    }
  }

  /** After a run, the crosswalk and stencil flags are set exactly when some tick reached the map. */
  lemma {:induction false} MapFlagsAfterRun(f: Flags, inputs: seq<TickInput>)
    ensures FlagsAfter(f, inputs).crosswalks <==>
      f.crosswalks || exists k :: 0 <= k < |inputs| && inputs[k].gameMode.Some?
    ensures FlagsAfter(f, inputs).stencils <==>
      f.stencils || exists k :: 0 <= k < |inputs| && inputs[k].gameMode.Some?
  {
    if |inputs| > 0 {
      var prefix := inputs[..|inputs| - 1];
      MapFlagsAfterRun(f, prefix);
      if exists k :: 0 <= k < |prefix| && prefix[k].gameMode.Some? {
        var k :| 0 <= k < |prefix| && prefix[k].gameMode.Some?;
        assert inputs[k] == prefix[k];
      }
      if exists k :: 0 <= k < |inputs| && inputs[k].gameMode.Some? {
        var k :| 0 <= k < |inputs| && inputs[k].gameMode.Some?;
        if k < |prefix| {
          assert prefix[k] == inputs[k];
        }
      }
    }
  }

  lemma AppendFour<T>(p0: seq<T>, a: seq<T>, b: seq<T>, c: seq<T>, d: seq<T>, p1: seq<T>, p2: seq<T>, p3: seq<T>, p4: seq<T>)
    requires p1 == p0 + a && p2 == p1 + b && p3 == p2 + c && p4 == p3 + d
    ensures p4 == p0 + (a + b + c + d)
  {
  }

  /** The sensor actor. */
  class CosmosControlSensor {
    const dynamicLines: LineBatch
    const persistentLines: LineBatch
    var addedPersistedStopLines: bool
    var addedPersistedRouteLines: bool
    var addedPersistedCrosswalks: bool
    var addedPersistedStencils: bool
    var renderConfig: RenderConfig

    /** The two batches are distinct components. */
    ghost predicate Valid()
    {
      dynamicLines != persistentLines
    }

    function CurrentFlags(): Flags
      reads this
    {
      Flags(addedPersistedStopLines, addedPersistedRouteLines, addedPersistedCrosswalks, addedPersistedStencils)
    }

    constructor ()
      ensures Valid() && fresh(dynamicLines) && fresh(persistentLines)
      ensures dynamicLines.primitives == [] && persistentLines.primitives == []
      ensures CurrentFlags() == InitialFlags && renderConfig == Defaults
    {
      dynamicLines := new LineBatch();
      persistentLines := new LineBatch();
      addedPersistedStopLines := false;
      addedPersistedRouteLines := false;
      addedPersistedCrosswalks := false;
      addedPersistedStencils := false;
      renderConfig := Defaults;
    }

    /** Set: applies the configuration file over the current configuration. */
    method Set(file: ConfigFile)
      modifies this
      ensures renderConfig == LoadConfig(old(renderConfig), file)
      ensures CurrentFlags() == old(CurrentFlags())
    {
      renderConfig := LoadConfig(renderConfig, file);
    }

    /** Persistent drawing goes to the persistent batch and everything else to the dynamic one. */
    function GetDebugLineBatcher(persistent: bool): (b: LineBatch)
      ensures Valid() ==> (b == persistentLines <==> persistent) && (b == dynamicLines <==> !persistent)
    {
      if persistent then persistentLines else dynamicLines
    }

    method DrawDebugLine(lineStart: Vec, lineEnd: Vec, color: Color, persistent: bool := false,
                         depthPriority: byte := 0, thickness: real := 0.0)
      requires Valid()
      modifies GetDebugLineBatcher(persistent)
      ensures GetDebugLineBatcher(persistent).primitives ==
        old(GetDebugLineBatcher(persistent).primitives) + [Line(At(lineStart), At(lineEnd), color, depthPriority, thickness)]
    {
      var batch := GetDebugLineBatcher(persistent);
      batch.Draw(Line(At(lineStart), At(lineEnd), color, depthPriority, thickness));
    }

    method DrawDebugSolidBox(center: Vec, extent: Vec, rotation: Quat, color: Color, persistent: bool := false,
                             depthPriority: byte := 0)
      requires Valid()
      modifies GetDebugLineBatcher(persistent)
      ensures GetDebugLineBatcher(persistent).primitives ==
        old(GetDebugLineBatcher(persistent).primitives) + [SolidBox(center, extent, rotation, color, depthPriority)]
    {
      var batch := GetDebugLineBatcher(persistent);
      batch.Draw(SolidBox(center, extent, rotation, color, depthPriority));
    }

    /** The twelve edges of a rotated box, handed to the batch in one call. */
    method DrawDebugBox(center: Vec, box: Vec, rotation: Quat, color: Color, persistent: bool := false,
                        depthPriority: byte := 0, thickness: real := 0.0)
      requires Valid()
      modifies GetDebugLineBatcher(persistent)
      ensures GetDebugLineBatcher(persistent).primitives ==
        old(GetDebugLineBatcher(persistent).primitives) + WireBoxLines(center, box, rotation, color, depthPriority, thickness)
    {
      var batch := GetDebugLineBatcher(persistent);
      var lines: seq<Primitive> := [];
      var e := 0;
      while e < 12
        invariant 0 <= e <= 12
        invariant |lines| == e
        invariant forall j :: 0 <= j < e ==> lines[j] == EdgeLine(center, box, rotation, color, depthPriority, thickness, BoxEdges[j])
      {
        var edge := BoxEdges[e];
        var start := Rotated(center, rotation, CornerOffset(box, edge.0));
        var end := Rotated(center, rotation, CornerOffset(box, edge.1));
        lines := lines + [Line(start, end, color, depthPriority, thickness)];
        e := e + 1;
      }
      assert lines == WireBoxLines(center, box, rotation, color, depthPriority, thickness);
      batch.DrawLines(lines);
    }

    method DrawDebugCapsule(center: Vec, halfHeight: real, radius: real, rotation: Quat, color: Color,
                            persistent: bool := false, depthPriority: byte := 0, thickness: real := 0.0)
      requires Valid()
      modifies GetDebugLineBatcher(persistent)
      ensures GetDebugLineBatcher(persistent).primitives ==
        old(GetDebugLineBatcher(persistent).primitives) + [Capsule(center, halfHeight, radius, rotation, color, depthPriority, thickness)]
    {
      var batch := GetDebugLineBatcher(persistent);
      batch.Draw(Capsule(center, halfHeight, radius, rotation, color, depthPriority, thickness));
    }

    method DrawDebugMesh(vertices: seq<Point>, indices: seq<int>, color: Color, persistent: bool := false,
                         depthPriority: byte := 0)
      requires Valid()
      modifies GetDebugLineBatcher(persistent)
      ensures GetDebugLineBatcher(persistent).primitives ==
        old(GetDebugLineBatcher(persistent).primitives) + [Mesh(vertices, indices, color, depthPriority)]
    {
      var batch := GetDebugLineBatcher(persistent);
      batch.Draw(Mesh(vertices, indices, color, depthPriority));
    }

    /** The bounds computation of the component loop, for a component with an owner. */
    method ComponentBounds(c: MeshComponent) returns (b: Option<Bounds>)
      requires c.owner.Some?
      ensures b == AnnotationBounds(c)
    {
      var owner := c.owner.value;
      var bounds := owner.bounds;
      match c.kind {
        case OtherMesh => return None;
        case StaticMesh(name, asset) =>
          if asset.Some? {
            if !Text.ContainsIgnoreCase(name, "mesh") || Text.ContainsIgnoreCase(name, "road") { return None; }
            bounds := Bounds(owner.bounds.origin, asset.value.extent);
          }
        case SkeletalMesh(asset) =>
          if asset.Some? {
            var e := asset.value.extent;
            bounds := Bounds(Vec(c.location.x, c.location.y, c.location.z + e.z), e);
          }
      }
      return Some(bounds);
    }

    /** The tag dispatch of the component loop. */
    method DrawByTag(c: MeshComponent, bounds: Bounds)
      requires Valid() && c.owner.Some?
      modifies dynamicLines
      ensures dynamicLines.primitives == old(dynamicLines.primitives) + TagPrimitives(c, bounds, renderConfig)
    {
      var visColor := ColorByTag(renderConfig, c.tag);
      var rotation := c.owner.value.rotation;
      match DrawKindOf(c.tag) {
        case SolidBoxDraw =>
          DrawDebugSolidBox(c.location, bounds.extent, rotation, visColor, false, SdpgWorld);
        case WireBoxDraw =>
          DrawDebugBox(bounds.origin, bounds.extent, rotation, visColor, false, SdpgWorld, renderConfig.vehicleBoxThickness);
        case CapsuleDraw =>
          var halfHeight := Max(bounds.extent.z, c.owner.value.bounds.extent.z);
          var distanceToRoad := c.location.z;
          DrawDebugCapsule(Add(c.location, Vec(0.0, 0.0, halfHeight)),
                           halfHeight + (if distanceToRoad > PoleGroundThreshold then 0.0 else distanceToRoad),
                           PoleRadius, IdentityQuat, visColor, false, SdpgWorld, renderConfig.poleThickness);
        case NoDraw =>
      }
    }

    /** The body of the component loop for one mesh component: the filters, then the
      bounds, then the tag dispatch. */
    method AnnotateComponent(c: MeshComponent, player: Option<ActorHandle>, ignored: set<int>)
      requires Valid()
      modifies dynamicLines
      ensures dynamicLines.primitives == old(dynamicLines.primitives) + ComponentPrimitives(c, renderConfig, player, ignored)
    {
      if !c.visible { return; }
      if c.owner.None? { return; }
      var owner := c.owner.value;
      if player == Some(owner.handle) { return; }
      if owner.carlaActor.Some? && Text.ContainsIgnoreCase(owner.carlaActor.value.descriptionId, "vehicle") &&
         owner.carlaActor.value.actorId in ignored { return; }
      if c.location.z > GroundFilterHeight { return; }
      assert !Skipped(c, player, ignored);
      var bounds := ComponentBounds(c);
      if bounds.None? { return; }
      DrawByTag(c, bounds.value);
    }

    /** The component loop of the tick. */
    method AnnotateDynamicObjects(components: seq<MeshComponent>, player: Option<ActorHandle>, ignored: set<int>)
      requires Valid()
      modifies dynamicLines
      ensures dynamicLines.primitives == old(dynamicLines.primitives) + DynamicAnnotations(components, renderConfig, player, ignored)
    {
      var k := 0;
      while k < |components|
        invariant 0 <= k <= |components|
        invariant dynamicLines.primitives == old(dynamicLines.primitives) + DynamicAnnotations(components[..k], renderConfig, player, ignored)
      {
        AnnotateNext(components, k, player, ignored, old(dynamicLines.primitives));
        k := k + 1;
      }
      assert components[..k] == components;
    }

    /** One turn of the component loop: component `k` is annotated after those before it. */
    method AnnotateNext(components: seq<MeshComponent>, k: nat, player: Option<ActorHandle>, ignored: set<int>,
                        ghost base: seq<Primitive>)
      requires Valid() && k < |components|
      requires dynamicLines.primitives == base + DynamicAnnotations(components[..k], renderConfig, player, ignored)
      modifies dynamicLines
      ensures dynamicLines.primitives == base + DynamicAnnotations(components[..k + 1], renderConfig, player, ignored)
    {
      AnnotateComponent(components[k], player, ignored);
      DynamicAnnotationsStep(components, k, renderConfig, player, ignored);
      AppendAssoc(base, DynamicAnnotations(components[..k], renderConfig, player, ignored),
                  ComponentPrimitives(components[k], renderConfig, player, ignored));
    }

    /** The stop-line loop over the traffic lights. */
    method AddStopLines(boxes: seq<StopBox>)
      requires Valid()
      modifies persistentLines
      ensures persistentLines.primitives == old(persistentLines.primitives) + StopLines(boxes, renderConfig)
    {
      var k := 0;
      while k < |boxes|
        invariant 0 <= k <= |boxes|
        invariant persistentLines.primitives == old(persistentLines.primitives) + StopLines(boxes[..k], renderConfig)
      {
        var box := boxes[k];
        var stopLineOffset := renderConfig.stopLineThickness * 0.5 + 2.0;
        var basePos := Vec(box.location.x, box.location.y, -stopLineOffset);
        var lineStart := Sub(Add(basePos, Scale(-box.scaledExtent.x, box.forward)), Scale(StopLineSideShift, box.right));
        var lineEnd := Sub(Add(basePos, Scale(box.scaledExtent.x, box.forward)), Scale(StopLineSideShift, box.right));
        DrawDebugLine(lineStart, lineEnd, renderConfig.waitLinesColor, true, SdpgWorld, renderConfig.stopLineThickness);
        assert boxes[..k + 1][..k] == boxes[..k];
        k := k + 1;
      }
      assert boxes[..k] == boxes;
    }

    /** DrawSpline: one persistent line per consecutive pair of spline points. */
    method DrawSpline(s: RoadSpline)
      requires Valid()
      modifies persistentLines
      ensures persistentLines.primitives == old(persistentLines.primitives) + SplineSegments(s, renderConfig)
    {
      var numPoints := |s.points|;
      if numPoints < 2 { return; }
      var offset := renderConfig.roadLineThickness;
      var lineColor := if s.boundary != Driving then renderConfig.roadBoundariesColor else renderConfig.laneLinesColor;
      var i := 0;
      while i < numPoints - 1
        invariant 0 <= i <= numPoints - 1
        invariant persistentLines.primitives == old(persistentLines.primitives) + SegmentsUpTo(s, renderConfig, i)
      {
        var p0 := Lowered(s.points[i], offset);
        var p1 := Lowered(s.points[i + 1], offset);
        DrawDebugLine(p0, p1, lineColor, true, SdpgWorld, renderConfig.roadLineThickness);
        i := i + 1;
      }
    }

    /** The body of the inner route-line loop for one spline of a road. */
    method DrawIfRendered(spline: RoadSpline, group: seq<RoadSpline>)
      requires Valid()
      modifies persistentLines
      ensures persistentLines.primitives ==
        old(persistentLines.primitives) + (if Renders(spline, group) then SplineSegments(spline, renderConfig) else [])
    {
      if !Participates(spline) { return; }
      var found := Neighbours(spline, group);
      var shouldRender := DecideShouldRender(spline, found);
      if shouldRender {
        DrawSpline(spline);
      }
    }

    /** The inner route-line loop over the splines of one road. */
    method AddGroupLines(group: seq<RoadSpline>)
      requires Valid()
      modifies persistentLines
      ensures persistentLines.primitives == old(persistentLines.primitives) + GroupLines(group, |group|, renderConfig)
    {
      var k := 0;
      while k < |group|
        invariant 0 <= k <= |group|
        invariant persistentLines.primitives == old(persistentLines.primitives) + GroupLines(group, k, renderConfig)
      {
        DrawIfRendered(group[k], group);
        k := k + 1;
      }
    }

    /** The route-line pass over the splines grouped by road. */
    method AddRouteLines(splines: seq<RoadSpline>)
      requires Valid()
      modifies persistentLines
      ensures persistentLines.primitives == old(persistentLines.primitives) + RouteLines(splines, renderConfig)
    {
      var order, groups := GroupByRoadId(splines);
      var r := 0;
      while r < |order|
        invariant 0 <= r <= |order|
        invariant persistentLines.primitives == old(persistentLines.primitives) + RoadsLines(splines, order[..r], renderConfig)
      {
        assert order[r] in order;
        AddGroupLines(groups[order[r]]);
        RoadsLinesStep(splines, order, r, renderConfig);
        AppendAssoc(old(persistentLines.primitives), RoadsLines(splines, order[..r], renderConfig),
                    GroupLines(groups[order[r]], |groups[order[r]]|, renderConfig));
        r := r + 1;
      }
      assert order[..r] == order;
    }

    /** Drawing a closed polygon: a triangle fan when it has at least three points. */
    method DrawClosedPolygon(currentPolygon: seq<Point>, color: Color)
      requires Valid()
      modifies persistentLines
      ensures persistentLines.primitives == old(persistentLines.primitives) + PolygonMesh(currentPolygon, color)
    {
      if |currentPolygon| >= 3 {
        var meshIndices := FanTriangulation(|currentPolygon|);
        DrawDebugMesh(currentPolygon, meshIndices, color, true, SdpgWorld);
      }
    }

    /** The crosswalk splitter: walks the point list, closes a polygon whenever its first
      point recurs, draws the closed polygons of three or more points, and restarts after
      the closing point. */
    method AddCrosswalks(points: seq<Vec>)
      requires Valid()
      modifies persistentLines
      ensures persistentLines.primitives == old(persistentLines.primitives) + CrosswalkMeshes(points, renderConfig.crosswalksColor)
    {
      if |points| == 0 { return; }
      var color := renderConfig.crosswalksColor;
      var currentPolygon: seq<Point> := [ToEngine(points[0])];
      var firstInLoop := points[0];
      ghost var drawn: seq<Primitive> := [];
      ghost var total := Scan(points[1..], color, points[0], [ToEngine(points[0])]);
      var i: nat := 1;
      while i < |points|
        invariant i <= |points|
        invariant drawn + Scan(points[i..], color, firstInLoop, currentPolygon) == total
        invariant persistentLines.primitives == old(persistentLines.primitives) + drawn
        decreases |points| - i
      {
        ScanAt(points, i, color, firstInLoop, currentPolygon);
        if points[i] == firstInLoop {
          ghost var rest := if i + 1 < |points| then Scan(points[i + 2..], color, points[i + 1], [ToEngine(points[i + 1])]) else [];
          AppendAssoc(drawn, PolygonMesh(currentPolygon, color), rest);
          DrawClosedPolygon(currentPolygon, color);
          AppendAssoc(old(persistentLines.primitives), drawn, PolygonMesh(currentPolygon, color));
          drawn := drawn + PolygonMesh(currentPolygon, color);
          currentPolygon := [];
          if i < |points| - 1 {
            i := i + 1;
            firstInLoop := points[i];
            currentPolygon := [ToEngine(firstInLoop)];
          }
        } else {
          currentPolygon := currentPolygon + [ToEngine(points[i])];
        }
        i := i + 1;
      }
      assert points[i..] == [];
      ScanDrawsCrosswalks(points, color);
    }

    /** The stencil pass: one quad per present stencil. */
    method AddStencils(stencils: seq<Option<Stencil>>)
      requires Valid()
      modifies persistentLines
      ensures persistentLines.primitives == old(persistentLines.primitives) + StencilMeshes(stencils, renderConfig.roadMarkingsColor)
    {
      var k := 0;
      while k < |stencils|
        invariant 0 <= k <= |stencils|
        invariant persistentLines.primitives ==
          old(persistentLines.primitives) + StencilMeshes(stencils[..k], renderConfig.roadMarkingsColor)
      {
        assert stencils[..k + 1][..k] == stencils[..k];
        if stencils[k].Some? {
          var st := stencils[k].value;
          var o := StencilOffsets(st);
          var meshVertices := [Rotated(st.location, st.rotation, o[0]), Rotated(st.location, st.rotation, o[1]),
                               Rotated(st.location, st.rotation, o[2]), Rotated(st.location, st.rotation, o[3])];
          DrawDebugMesh(meshVertices, StencilIndices, renderConfig.roadMarkingsColor, true, SdpgWorld);
        }
        k := k + 1;
      }
      assert stencils[..k] == stencils;
    }

    /** The stop-line block of the tick: runs once, even when there are no traffic lights. */
    method TickStopLines(input: TickInput)
      requires Valid()
      modifies this, persistentLines
      ensures renderConfig == old(renderConfig)
      ensures persistentLines.primitives ==
        old(persistentLines.primitives) + LayerAdditions(StopLayer, old(CurrentFlags()), input, renderConfig)
      ensures CurrentFlags() == old(CurrentFlags()).(stopLines := true)
    {
      if !addedPersistedStopLines {
        addedPersistedStopLines := true;
        AddStopLines(input.trafficLights);
      }
    }

    /** The route-line block of the tick: retried on every tick until some road spline exists. */
    method TickRouteLines(input: TickInput)
      requires Valid()
      modifies this, persistentLines
      ensures renderConfig == old(renderConfig)
      ensures persistentLines.primitives ==
        old(persistentLines.primitives) + LayerAdditions(RouteLayer, old(CurrentFlags()), input, renderConfig)
      ensures CurrentFlags() == old(CurrentFlags()).(routeLines := old(CurrentFlags()).routeLines || |input.roadSplines| > 0)
    {
      if !addedPersistedRouteLines {
        if |input.roadSplines| > 0 {
          addedPersistedRouteLines := true;
        }
        AddRouteLines(input.roadSplines);
      }
    }

    /** The crosswalk block of the tick: runs once the map is reachable. */
    method TickCrosswalks(input: TickInput)
      requires Valid()
      modifies this, persistentLines
      ensures renderConfig == old(renderConfig)
      ensures persistentLines.primitives ==
        old(persistentLines.primitives) + LayerAdditions(CrosswalkLayer, old(CurrentFlags()), input, renderConfig)
      ensures CurrentFlags() == old(CurrentFlags()).(crosswalks := old(CurrentFlags()).crosswalks || input.gameMode.Some?)
    {
      if !addedPersistedCrosswalks && input.gameMode.Some? {
        addedPersistedCrosswalks := true;
        AddCrosswalks(input.gameMode.value.crosswalkPoints);
      }
    }

    /** The stencil block of the tick: runs once the map is reachable. */
    method TickStencils(input: TickInput)
      requires Valid()
      modifies this, persistentLines
      ensures renderConfig == old(renderConfig)
      ensures persistentLines.primitives ==
        old(persistentLines.primitives) + LayerAdditions(StencilLayer, old(CurrentFlags()), input, renderConfig)
      ensures CurrentFlags() == old(CurrentFlags()).(stencils := old(CurrentFlags()).stencils || input.gameMode.Some?)
    {
      if !addedPersistedStencils && input.gameMode.Some? {
        addedPersistedStencils := true;
        AddStencils(input.gameMode.value.stencils);
      }
    }

    /** One tick: the dynamic batch is rebuilt from the components, and each persistent
      layer whose flag is clear is drawn once into the persistent batch. */
    method PostPhysTick(input: TickInput)
      requires Valid()
      modifies this, dynamicLines, persistentLines
      ensures Valid()
      ensures renderConfig == old(renderConfig)
      ensures dynamicLines.primitives ==
        DynamicAnnotations(input.components, renderConfig, PlayerOf(input.registry), input.ignoredVehicles)
      ensures persistentLines.primitives ==
        old(persistentLines.primitives) + PersistentAdditions(old(CurrentFlags()), input, renderConfig)
      ensures CurrentFlags() == NextFlags(old(CurrentFlags()), input)
    {
      ghost var f0 := CurrentFlags();
      ghost var p0 := persistentLines.primitives;
      dynamicLines.Flush();
      var playerActor := FindPlayer(input.registry);
      AnnotateDynamicObjects(input.components, playerActor, input.ignoredVehicles);
      ghost var dyn := dynamicLines.primitives;

      TickStopLines(input);
      ghost var p1 := persistentLines.primitives;
      TickRouteLines(input);
      ghost var p2 := persistentLines.primitives;
      TickCrosswalks(input);
      ghost var p3 := persistentLines.primitives;
      TickStencils(input);
      AppendFour(p0, LayerAdditions(StopLayer, f0, input, renderConfig), LayerAdditions(RouteLayer, f0, input, renderConfig),
                 LayerAdditions(CrosswalkLayer, f0, input, renderConfig), LayerAdditions(StencilLayer, f0, input, renderConfig),
                 p1, p2, p3, persistentLines.primitives);
      assert dynamicLines.primitives == dyn;
    }
  }
}
