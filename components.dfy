/** The dynamic-object pass of PostPhysTick, on values: the player lookup in the
    actor registry, the filters that skip a mesh component, the bounds each kind of
    mesh contributes, and the primitives drawn for a component by its tag. */
module Components {
  import opened Wrappers
  import opened Geometry
  import opened RenderConfig
  import opened Classifier
  import opened Text

  /** The identity of an engine actor (an AActor pointer in the source). */
  type ActorHandle = nat

  /** An FCarlaActor found for an owner: its id and its description id. */
  datatype CarlaActorInfo = CarlaActorInfo(actorId: int, descriptionId: string)

  /** An axis-aligned box: origin and half extents (FBoxSphereBounds without the sphere). */
  datatype Bounds = Bounds(origin: Vec, extent: Vec)

  /** The owning actor of a component, with what the tick asks of it: its world
      bounds (GetActorBounds), its rotation, and its FCarlaActor if the registry has one. */
  datatype Owner = Owner(handle: ActorHandle, bounds: Bounds, rotation: Quat, carlaActor: Option<CarlaActorInfo>)

  /** The capability of a mesh component: a static mesh (its name and its mesh
      asset's bounds, if it has an asset), a skeletal mesh, or neither. */
  datatype MeshKind =
    | StaticMesh(name: string, asset: Option<Bounds>)
    | SkeletalMesh(skeletalAsset: Option<Bounds>)
    | OtherMesh

  /** One UMeshComponent as the tick sees it. */
  datatype MeshComponent = MeshComponent(
    visible: bool, owner: Option<Owner>, location: Vec, tag: CityObjectLabel, kind: MeshKind)

  /** One entry of the episode's actor registry: the actor and its `role_name` attribute. */
  datatype RegistryEntry = RegistryEntry(actor: ActorHandle, roleName: Option<string>)

  /** Components above this height are assumed to be off the road. */
  const GroundFilterHeight: real := 10000.0
  /** Poles whose base is above this height get no ground offset. */
  const PoleGroundThreshold: real := 250.0
  /** The fixed radius of a pole capsule. */
  const PoleRadius: real := 0.1

  /** The registry entry of the player (ego) vehicle. */
  predicate IsPlayerEntry(e: RegistryEntry)
  {
    e.roleName.Some? &&
    (ContainsIgnoreCase(e.roleName.value, "hero") || ContainsIgnoreCase(e.roleName.value, "ego_vehicle"))
  }

  /** Entry `k` is a player entry and no earlier one is. */
  predicate FirstPlayerAt(registry: seq<RegistryEntry>, k: int)
  {
    0 <= k < |registry| && IsPlayerEntry(registry[k]) && forall j :: 0 <= j < k ==> !IsPlayerEntry(registry[j])
  }

  /** The actor of the first player entry in registry order. */
  function PlayerOf(registry: seq<RegistryEntry>): (p: Option<ActorHandle>)
    ensures p.None? <==> forall k :: 0 <= k < |registry| ==> !IsPlayerEntry(registry[k])
    ensures p.Some? ==> exists k :: FirstPlayerAt(registry, k) && p.value == registry[k].actor
  {
    if |registry| == 0 then None
    else if IsPlayerEntry(registry[0]) then Some(registry[0].actor)
    else
      var p := PlayerOf(registry[1..]);
      assert forall k :: 1 <= k < |registry| ==> registry[1..][k - 1] == registry[k];
      p
  }

  /** The registry scan of PostPhysTick, stopping at the first player entry. */
  method FindPlayer(registry: seq<RegistryEntry>) returns (player: Option<ActorHandle>)
    ensures player == PlayerOf(registry)
  {
    player := None;
    var k := 0;
    while k < |registry|
      invariant 0 <= k <= |registry|
      invariant PlayerOf(registry[k..]) == PlayerOf(registry)
    {
      if IsPlayerEntry(registry[k]) {
        player := Some(registry[k].actor);
        return;
      }
      assert registry[k..][1..] == registry[k + 1..];
      k := k + 1;
    }
  }

  /** The owner is a vehicle on this sensor's ignore list. */
  predicate IgnoredVehicle(o: Owner, ignored: set<int>)
  {
    o.carlaActor.Some? && ContainsIgnoreCase(o.carlaActor.value.descriptionId, "vehicle") &&
    o.carlaActor.value.actorId in ignored
  }

  /** The five early `continue`s before any bounds are computed. */
  predicate Skipped(c: MeshComponent, player: Option<ActorHandle>, ignored: set<int>)
  {
    || !c.visible
    || c.owner.None?
    || player == Some(c.owner.value.handle)
    || IgnoredVehicle(c.owner.value, ignored)
    || c.location.z > GroundFilterHeight
  }

  /** The static-mesh name rule: contains "mesh" and not "road", ignoring case. */
  predicate NameSelected(name: string)
  {
    ContainsIgnoreCase(name, "mesh") && !ContainsIgnoreCase(name, "road")
  }

  /** The bounds the tick draws with, or None when the component is skipped for its kind:
      neither static nor skeletal, or a static mesh with an asset whose name fails the rule. */
  function AnnotationBounds(c: MeshComponent): (b: Option<Bounds>)
    requires c.owner.Some?
    ensures c.kind.OtherMesh? ==> b.None?
    ensures c.kind.StaticMesh? && c.kind.asset.Some? ==>
      (b.Some? <==> NameSelected(c.kind.name)) &&
      (b.Some? ==> b.value == Bounds(c.owner.value.bounds.origin, c.kind.asset.value.extent))
    ensures c.kind.SkeletalMesh? && c.kind.skeletalAsset.Some? ==>
      var e := c.kind.skeletalAsset.value.extent;
      b == Some(Bounds(Vec(c.location.x, c.location.y, c.location.z + e.z), e))
    ensures (c.kind.StaticMesh? && c.kind.asset.None?) || (c.kind.SkeletalMesh? && c.kind.skeletalAsset.None?) ==>
      b == Some(c.owner.value.bounds)
  {
    var actorBounds := c.owner.value.bounds;
    match c.kind
    case OtherMesh => None
    case StaticMesh(name, asset) =>
      if asset.None? then Some(actorBounds)
      else if !NameSelected(name) then None
      else Some(Bounds(actorBounds.origin, asset.value.extent))
    case SkeletalMesh(asset) =>
      if asset.None? then Some(actorBounds)
      else
        var e := asset.value.extent;
        Some(Bounds(Vec(c.location.x, c.location.y, c.location.z + e.z), e))
  }

  /** A corner of a box, by the sign of each local coordinate. */
  datatype Corner = Corner(px: bool, py: bool, pz: bool)

  /** The local offset of a corner of a box with half extents `box`. */
  function CornerOffset(box: Vec, c: Corner): Vec
  {
    Vec(if c.px then box.x else -box.x, if c.py then box.y else -box.y, if c.pz then box.z else -box.z)
  }

  /** The twelve edges DrawDebugBox draws, in its order: top face, bottom face, verticals. */
  const BoxEdges: seq<(Corner, Corner)> := [
    (Corner(true, true, true), Corner(true, false, true)),
    (Corner(true, false, true), Corner(false, false, true)),
    (Corner(false, false, true), Corner(false, true, true)),
    (Corner(false, true, true), Corner(true, true, true)),
    (Corner(true, true, false), Corner(true, false, false)),
    (Corner(true, false, false), Corner(false, false, false)),
    (Corner(false, false, false), Corner(false, true, false)),
    (Corner(false, true, false), Corner(true, true, false)),
    (Corner(true, true, true), Corner(true, true, false)),
    (Corner(true, false, true), Corner(true, false, false)),
    (Corner(false, false, true), Corner(false, false, false)),
    (Corner(false, true, true), Corner(false, true, false))
  ]

  /** The number of coordinates in which two corners differ. */
  function CornerDistance(a: Corner, b: Corner): nat
  {
    (if a.px != b.px then 1 else 0) + (if a.py != b.py then 1 else 0) + (if a.pz != b.pz then 1 else 0)
  }

  /** How many edges of `edges` touch corner `c`. */
  function Incidence(edges: seq<(Corner, Corner)>, c: Corner): nat
  {
    if |edges| == 0 then 0
    else Incidence(edges[..|edges| - 1], c) + Touches(edges[|edges| - 1], c)
  }

  function Touches(e: (Corner, Corner), c: Corner): nat
  {
    if e.0 == c || e.1 == c then 1 else 0
  }

  predicate SameEdge(e: (Corner, Corner), f: (Corner, Corner))
  {
    (e.0 == f.0 && e.1 == f.1) || (e.0 == f.1 && e.1 == f.0)
  }

  /** Each of DrawDebugBox's twelve lines joins two corners that differ in one coordinate. */
  lemma BoxEdgesAreAdjacent()
    ensures |BoxEdges| == 12
    ensures forall i :: 0 <= i < 12 ==> CornerDistance(BoxEdges[i].0, BoxEdges[i].1) == 1
  {
  }

  /** No edge of the box is drawn twice, in either direction. */
  lemma BoxEdgesDistinct()
    ensures forall i, j :: 0 <= i < j < |BoxEdges| ==> !SameEdge(BoxEdges[i], BoxEdges[j])
  {
  }

  /** The incidence count over twelve edges, written out. */
  lemma IncidenceOfTwelve(e: seq<(Corner, Corner)>, c: Corner)
    requires |e| == 12
    ensures Incidence(e, c) == Touches(e[0], c) + Touches(e[1], c) + Touches(e[2], c) + Touches(e[3], c) +
      Touches(e[4], c) + Touches(e[5], c) + Touches(e[6], c) + Touches(e[7], c) +
      Touches(e[8], c) + Touches(e[9], c) + Touches(e[10], c) + Touches(e[11], c)
  {
    assert e[..12] == e;
    assert e[..1][..0] == e[..0];
    assert Incidence(e[..1], c) == Incidence(e[..0], c) + Touches(e[0], c);
    assert e[..2][..1] == e[..1];
    assert Incidence(e[..2], c) == Incidence(e[..1], c) + Touches(e[1], c);
    assert e[..3][..2] == e[..2];
    assert Incidence(e[..3], c) == Incidence(e[..2], c) + Touches(e[2], c);
    assert e[..4][..3] == e[..3];
    assert Incidence(e[..4], c) == Incidence(e[..3], c) + Touches(e[3], c);
    assert e[..5][..4] == e[..4];
    assert Incidence(e[..5], c) == Incidence(e[..4], c) + Touches(e[4], c);
    assert e[..6][..5] == e[..5];
    assert Incidence(e[..6], c) == Incidence(e[..5], c) + Touches(e[5], c);
    assert e[..7][..6] == e[..6];
    assert Incidence(e[..7], c) == Incidence(e[..6], c) + Touches(e[6], c);
    assert e[..8][..7] == e[..7];
    assert Incidence(e[..8], c) == Incidence(e[..7], c) + Touches(e[7], c);
    assert e[..9][..8] == e[..8];
    assert Incidence(e[..9], c) == Incidence(e[..8], c) + Touches(e[8], c);
    assert e[..10][..9] == e[..9];
    assert Incidence(e[..10], c) == Incidence(e[..9], c) + Touches(e[9], c);
    assert e[..11][..10] == e[..10];
    assert Incidence(e[..11], c) == Incidence(e[..10], c) + Touches(e[10], c);
    assert e[..12][..11] == e[..11];
    assert Incidence(e[..12], c) == Incidence(e[..11], c) + Touches(e[11], c);
  }

  /** Every one of the eight corners is an end of exactly three of the lines, so the
      twelve lines are the whole wire frame of the box. */
  lemma BoxEdgesCoverCorners(c: Corner)
    ensures Incidence(BoxEdges, c) == 3
  {
    IncidenceOfTwelve(BoxEdges, c);
    var Corner(x, y, z) := c;
    if x {
      if y { if z { } else { } } else { if z { } else { } }
    } else {
      if y { if z { } else { } } else { if z { } else { } }
    }
  }

  /** The line DrawDebugBox draws for one edge of the rotated box. */
  function EdgeLine(center: Vec, box: Vec, rotation: Quat, color: Color, depthPriority: byte, thickness: real,
                    edge: (Corner, Corner)): Primitive
  {
    Line(Rotated(center, rotation, CornerOffset(box, edge.0)), Rotated(center, rotation, CornerOffset(box, edge.1)),
         color, depthPriority, thickness)
  }

  /** The lines DrawDebugBox puts into its local `Lines` array: line i joins the two
      rotated corners of edge i of `BoxEdges`, with the given colour, depth and thickness. */
  function WireBoxLines(center: Vec, box: Vec, rotation: Quat, color: Color, depthPriority: byte, thickness: real): (lines: seq<Primitive>)
    ensures |lines| == |BoxEdges|
    ensures forall i :: 0 <= i < |BoxEdges| ==>
      lines[i] == Line(Rotated(center, rotation, CornerOffset(box, BoxEdges[i].0)),
                       Rotated(center, rotation, CornerOffset(box, BoxEdges[i].1)),
                       color, depthPriority, thickness)
  {
    seq(12, i requires 0 <= i < 12 => EdgeLine(center, box, rotation, color, depthPriority, thickness, BoxEdges[i]))
  }

  /** The ground offset of a pole capsule: none above 250 units, else the base height. */
  function PoleGroundOffset(z: real): (offset: real)
    ensures offset <= PoleGroundThreshold
    ensures z > PoleGroundThreshold ==> offset == 0.0
    ensures z <= PoleGroundThreshold ==> offset == z
  {
    if z > PoleGroundThreshold then 0.0 else z
  }

  function Max(a: real, b: real): real
  {
    if a >= b then a else b
  }

  /** The capsule drawn for a pole with bounds `b`. */
  function PoleCapsule(c: MeshComponent, b: Bounds, cfg: RenderConfig): Primitive
    requires c.owner.Some?
  {
    var halfHeight := Max(b.extent.z, c.owner.value.bounds.extent.z);
    Capsule(Add(c.location, Vec(0.0, 0.0, halfHeight)), halfHeight + PoleGroundOffset(c.location.z),
            PoleRadius, IdentityQuat, ColorByTag(cfg, c.tag), SdpgWorld, cfg.poleThickness)
  }

  /** What the tick draws for a component that passed the filters, with bounds `b`, by its tag. */
  function TagPrimitives(c: MeshComponent, b: Bounds, cfg: RenderConfig): seq<Primitive>
    requires c.owner.Some?
  {
    var color := ColorByTag(cfg, c.tag);
    var rotation := c.owner.value.rotation;
    match DrawKindOf(c.tag)
    case SolidBoxDraw => [SolidBox(c.location, b.extent, rotation, color, SdpgWorld)]
    case WireBoxDraw => WireBoxLines(b.origin, b.extent, rotation, color, SdpgWorld, cfg.vehicleBoxThickness)
    case CapsuleDraw => [PoleCapsule(c, b, cfg)]
    case NoDraw => []
  }

  /** What the tick appends to the dynamic batch for one component. */
  function ComponentPrimitives(c: MeshComponent, cfg: RenderConfig, player: Option<ActorHandle>, ignored: set<int>): seq<Primitive>
  {
    if Skipped(c, player, ignored) then []
    else
      match AnnotationBounds(c)
      case None => []
      case Some(b) => TagPrimitives(c, b, cfg)
  }

  /** What the tick appends to the dynamic batch for `components`, in order. */
  function DynamicAnnotations(components: seq<MeshComponent>, cfg: RenderConfig, player: Option<ActorHandle>, ignored: set<int>): seq<Primitive>
  {
    if |components| == 0 then []
    else DynamicAnnotations(components[..|components| - 1], cfg, player, ignored) +
         ComponentPrimitives(components[|components| - 1], cfg, player, ignored)
  }

  /** The dynamic batch of one more component. */
  lemma DynamicAnnotationsStep(components: seq<MeshComponent>, k: nat, cfg: RenderConfig, player: Option<ActorHandle>, ignored: set<int>)
    requires k < |components|
    ensures DynamicAnnotations(components[..k + 1], cfg, player, ignored) ==
      DynamicAnnotations(components[..k], cfg, player, ignored) + ComponentPrimitives(components[k], cfg, player, ignored)
  {
    assert components[..k + 1][..k] == components[..k];
  }

  /** A component contributes nothing, one primitive (solid box or capsule) or the
      twelve lines of a wire box, depending only on the filters, its bounds and its tag. */
  lemma ComponentPrimitiveCount(c: MeshComponent, cfg: RenderConfig, player: Option<ActorHandle>, ignored: set<int>)
    ensures var n := |ComponentPrimitives(c, cfg, player, ignored)|;
      var drawn := !Skipped(c, player, ignored) && AnnotationBounds(c).Some?;
      (n == 12 <==> drawn && DrawKindOf(c.tag) == WireBoxDraw) &&
      (n == 1 <==> drawn && DrawKindOf(c.tag) in {SolidBoxDraw, CapsuleDraw}) &&
      (n == 0 <==> !drawn || DrawKindOf(c.tag) == NoDraw)
  {
  }

  /** Invisible, ownerless, player-owned, ignored-vehicle and high components, and
      static meshes whose name fails the rule, are never drawn. */
  lemma FilteredComponentsDrawNothing(c: MeshComponent, cfg: RenderConfig, player: Option<ActorHandle>, ignored: set<int>)
    requires
      || !c.visible || c.owner.None? || c.location.z > 10000.0
      || (c.owner.Some? && player == Some(c.owner.value.handle))
      || (c.owner.Some? && IgnoredVehicle(c.owner.value, ignored))
      || (c.kind.StaticMesh? && c.kind.asset.Some? && !NameSelected(c.kind.name))
      || c.kind.OtherMesh?
    ensures ComponentPrimitives(c, cfg, player, ignored) == []
  {
  }

  /** A drawn vehicle or pedestrian is the wire box of its bounds, in its tag's colour
      and the configured vehicle-box thickness. */
  lemma VehicleBoxShape(c: MeshComponent, cfg: RenderConfig, player: Option<ActorHandle>, ignored: set<int>)
    requires !Skipped(c, player, ignored) && AnnotationBounds(c).Some?
    requires c.tag in {Car, Bicycle, Bus, Motorcycle, Pedestrians, Train, Truck}
    ensures var b := AnnotationBounds(c).value;
      ComponentPrimitives(c, cfg, player, ignored) ==
        WireBoxLines(b.origin, b.extent, c.owner.value.rotation, ColorByTag(cfg, c.tag), SdpgWorld, cfg.vehicleBoxThickness)
    ensures forall p :: p in ComponentPrimitives(c, cfg, player, ignored) ==>
      p.Line? && p.thickness == cfg.vehicleBoxThickness && p.depthPriority == SdpgWorld &&
      p.color in {cfg.carsColor, cfg.trucksColor, cfg.cyclistsColor, cfg.pedestriansColor}
  {
    DrawnTagsHaveConfiguredColors(cfg, c.tag);
  }

  /** A drawn pole is one capsule of radius 0.1 standing on the component, raised by
      its base height only when the base is at most 250 units up. */
  lemma PoleCapsulePlacement(c: MeshComponent, cfg: RenderConfig, player: Option<ActorHandle>, ignored: set<int>)
    requires !Skipped(c, player, ignored) && AnnotationBounds(c).Some? && c.tag == Poles
    ensures var prims := ComponentPrimitives(c, cfg, player, ignored);
      var b := AnnotationBounds(c).value;
      var h := Max(b.extent.z, c.owner.value.bounds.extent.z);
      |prims| == 1 && prims[0].Capsule? && prims[0].radius == 0.1 && prims[0].color == cfg.polesColor &&
      prims[0].center == Vec(c.location.x, c.location.y, c.location.z + h) &&
      (c.location.z > 250.0 ==> prims[0].halfHeight == h) &&
      (c.location.z <= 250.0 ==> prims[0].halfHeight == h + c.location.z)
  {
  }

  /** The examples of the pole rule: a pole at height 300 gets no offset, one at 100 gets 100. */
  lemma PoleOffsetExamples()
    ensures PoleGroundOffset(300.0) == 0.0 && PoleGroundOffset(100.0) == 100.0
  {
  }

  /** The dynamic batch is the concatenation of the components' primitives: a component's
      contribution does not depend on the others. */
  lemma {:induction false} DynamicAnnotationsAppend(a: seq<MeshComponent>, b: seq<MeshComponent>, cfg: RenderConfig, player: Option<ActorHandle>, ignored: set<int>)
    ensures DynamicAnnotations(a + b, cfg, player, ignored) ==
      DynamicAnnotations(a, cfg, player, ignored) + DynamicAnnotations(b, cfg, player, ignored)
    decreases |b|
  {
    if |b| == 0 {
      assert a + b == a;
    } else {
      var b', last := b[..|b| - 1], b[|b| - 1];
      ConcatDropLast(a, b);
      DynamicAnnotationsAppend(a, b', cfg, player, ignored);
      AppendAssoc(DynamicAnnotations(a, cfg, player, ignored), DynamicAnnotations(b', cfg, player, ignored),
                  ComponentPrimitives(last, cfg, player, ignored));
    }
  }
}
