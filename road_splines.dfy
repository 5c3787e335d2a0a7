/** The persistent route lines: road splines grouped by road, the lane-neighbour
    rule, the should-render decision table, and the polyline each rendered spline becomes. */
module RoadSplines {
  import opened Wrappers
  import opened Geometry
  import opened RenderConfig

  /** ERoadSplineBoundaryType; `OtherBoundary` stands for every other value. */
  datatype BoundaryType = Driving | Shoulder | Sidewalk | Median | OtherBoundary

  /** ERoadSplineOrientationType. */
  datatype Orientation = Left | Right

  /** An ARoadSpline actor: its road and lane, boundary kind, orientation, junction flag
      and the world locations of its spline points. */
  datatype RoadSpline = RoadSpline(
    roadId: int, laneId: int, boundary: BoundaryType, orientation: Orientation,
    isJunction: bool, points: seq<Vec>)

  /** Only these four boundary kinds are considered for drawing. */
  predicate Participates(s: RoadSpline)
  {
    s.boundary in {Driving, Shoulder, Sidewalk, Median}
  }

  /** The lane whose splines are this spline's neighbours: one lane further to the
      left (lower id) or right (higher id), skipping the reference lane 0. */
  function NeighbourLane(laneId: int, o: Orientation): (n: int)
    ensures o == Left ==> n < laneId && laneId - n <= 2
    ensures o == Right ==> laneId < n && n - laneId <= 2
    ensures laneId != 0 ==> n != 0
    ensures laneId != 0 && (n - laneId == 2 || laneId - n == 2) ==> n == -laneId
  {
    match o
    case Left => laneId + (if laneId == 1 then -2 else -1)
    case Right => laneId + (if laneId == -1 then 2 else 1)
  }

  /** On nonzero lanes, stepping left and stepping right undo each other. */
  lemma NeighbourLaneInverse(laneId: int)
    requires laneId != 0
    ensures NeighbourLane(NeighbourLane(laneId, Left), Right) == laneId
    ensures NeighbourLane(NeighbourLane(laneId, Right), Left) == laneId
  {
  }

  /** The splines of `group` on `s`'s neighbour lane, in group order (FilterByPredicate). */
  function Neighbours(s: RoadSpline, group: seq<RoadSpline>): (found: seq<RoadSpline>)
    ensures |found| <= |group|
    ensures forall t :: t in found <==> t in group && t.laneId == NeighbourLane(s.laneId, s.orientation)
    ensures s !in found
  {
    if |group| == 0 then []
    else
      var rest := Neighbours(s, group[..|group| - 1]);
      var t := group[|group| - 1];
      assert group == group[..|group| - 1] + [t];
      if t.laneId == NeighbourLane(s.laneId, s.orientation) then rest + [t] else rest
  }

  /** Index `k` holds the last spline of `group` on lane `lane`. */
  ghost predicate LastOnLane(group: seq<RoadSpline>, k: int, lane: int)
  {
    0 <= k < |group| && group[k].laneId == lane && forall j :: k < j < |group| ==> group[j].laneId != lane
  }

  /** A last spline on `lane` stays the last one when a spline on another lane is appended. */
  lemma LastOnLaneExtend(group: seq<RoadSpline>, k: int, lane: int)
    requires |group| > 0 && group[|group| - 1].laneId != lane
    requires LastOnLane(group[..|group| - 1], k, lane)
    ensures LastOnLane(group, k, lane)
  {
    var front := group[..|group| - 1];
    forall j | k < j < |group|
      ensures group[j].laneId != lane
    {
      if j < |front| {
        assert group[j] == front[j];
      }
    }
  }

  /** The filter keeps group order: the last spline found is the last spline of the
      group on the neighbour lane. */
  lemma {:induction false} LastNeighbour(s: RoadSpline, group: seq<RoadSpline>)
    requires |Neighbours(s, group)| > 0
    ensures exists k :: (LastOnLane(group, k, NeighbourLane(s.laneId, s.orientation)) &&
      Neighbours(s, group)[|Neighbours(s, group)| - 1] == group[k])
    decreases |group|
  {
    var front := group[..|group| - 1];
    var lane := NeighbourLane(s.laneId, s.orientation);
    var found := Neighbours(s, group);
    var last := group[|group| - 1];
    if last.laneId == lane {
      assert found == Neighbours(s, front) + [last];
      assert LastOnLane(group, |group| - 1, lane);
    } else {
      assert found == Neighbours(s, front);
      LastNeighbour(s, front);
      var k :| LastOnLane(front, k, lane) && found[|found| - 1] == front[k];
      LastOnLaneExtend(group, k, lane);
      assert found[|found| - 1] == group[k];
    }
  }

  /** One pass of the source's switch for neighbour `target`: the value it assigns to
      `should_render`, for junction, left and right splines. */
  function SwitchOutcome(s: RoadSpline, target: RoadSpline): bool
  {
    if s.isJunction then
      match target.boundary
      case Driving | Shoulder =>
        if s.boundary == Driving then false
        else if s.boundary == Shoulder then false
        else if s.boundary == Sidewalk then true
        else s.boundary == Median
      case _ => false
    else if s.orientation == Left then
      match target.boundary
      case Driving =>
        if s.boundary == Driving then s.laneId > 0 && s.laneId * target.laneId > 0
        else if s.boundary == Shoulder then false
        else if s.boundary == Sidewalk then s.laneId > 0 && s.laneId * target.laneId > 0
        else s.boundary == Median
      case Shoulder =>
        if s.boundary == Driving then false
        else if s.boundary == Shoulder then false
        else if s.boundary == Sidewalk then s.laneId > 0 && s.laneId * target.laneId > 0
        else s.boundary == Median
      case _ => false
    else
      match target.boundary
      case Driving =>
        if s.boundary == Driving then s.laneId < 0
        else if s.boundary == Shoulder then false
        else if s.boundary == Sidewalk then s.laneId < 0
        else s.boundary == Median
      case Shoulder =>
        if s.boundary == Driving then false
        else if s.boundary == Shoulder then false
        else if s.boundary == Sidewalk then s.laneId < 0
        else s.boundary == Median
      case _ => false
  }

  /** `should_render` after the loop over `found`: false before any neighbour, and
      every neighbour overwrites it. */
  function RenderDecision(s: RoadSpline, found: seq<RoadSpline>): bool
  {
    if |found| == 0 then false
    else SwitchOutcome(s, found[|found| - 1])
  }

  /** The decision loop of the tick for one spline. */
  method DecideShouldRender(s: RoadSpline, found: seq<RoadSpline>) returns (shouldRender: bool)
    ensures shouldRender == RenderDecision(s, found)
    ensures |found| == 0 ==> !shouldRender
  {
    shouldRender := false;
    var k := 0;
    while k < |found|
      invariant 0 <= k <= |found|
      invariant shouldRender == RenderDecision(s, found[..k])
    {
      var target := found[k];
      if s.isJunction {
        match target.boundary
        case Driving | Shoulder =>
          if s.boundary == Driving { shouldRender := false; }
          else if s.boundary == Shoulder { shouldRender := false; }
          else if s.boundary == Sidewalk { shouldRender := true; }
          else if s.boundary == Median { shouldRender := true; }
        case _ => shouldRender := false;
      } else if s.orientation == Left {
        match target.boundary
        case Driving =>
          if s.boundary == Driving { shouldRender := s.laneId > 0 && s.laneId * target.laneId > 0; }
          else if s.boundary == Shoulder { shouldRender := false; }
          else if s.boundary == Sidewalk { shouldRender := s.laneId > 0 && s.laneId * target.laneId > 0; }
          else if s.boundary == Median { shouldRender := true; }
        case Shoulder =>
          if s.boundary == Driving { shouldRender := false; }
          else if s.boundary == Shoulder { shouldRender := false; }
          else if s.boundary == Sidewalk { shouldRender := s.laneId > 0 && s.laneId * target.laneId > 0; }
          else if s.boundary == Median { shouldRender := true; }
        case _ => shouldRender := false;
      } else {
        match target.boundary
        case Driving =>
          if s.boundary == Driving { shouldRender := s.laneId < 0; }
          else if s.boundary == Shoulder { shouldRender := false; }
          else if s.boundary == Sidewalk { shouldRender := s.laneId < 0; }
          else if s.boundary == Median { shouldRender := true; }
        case Shoulder =>
          if s.boundary == Driving { shouldRender := false; }
          else if s.boundary == Shoulder { shouldRender := false; }
          else if s.boundary == Sidewalk { shouldRender := s.laneId < 0; }
          else if s.boundary == Median { shouldRender := true; }
        case _ => shouldRender := false;
      }
      assert found[..k + 1][k] == target;
      k := k + 1;
    }
    assert found[..k] == found;
  }

  /** The lane side on which a non-junction driving or sidewalk spline may render:
      left lanes from 2 up, right lanes below 0. */
  predicate OnRenderingSide(s: RoadSpline)
  {
    if s.orientation == Left then s.laneId >= 2 else s.laneId < 0
  }

  /** The decision table as it applies to real neighbours: with no neighbour nothing
      renders; otherwise only the last neighbour matters, it must be a driving or
      shoulder spline, and then junction sidewalks and medians render, non-junction
      medians render, and non-junction sidewalks (after any such neighbour) and driving
      splines (after a driving neighbour) render on their rendering side. Shoulders never render. */
  lemma {:induction false} RenderRule(s: RoadSpline, group: seq<RoadSpline>)
    requires Participates(s)
    ensures var found := Neighbours(s, group);
      var r := RenderDecision(s, found);
      (|found| == 0 ==> !r) &&
      (s.boundary == Shoulder ==> !r) &&
      (|found| > 0 ==>
        var t := found[|found| - 1];
        (r <==>
          (t.boundary in {Driving, Shoulder} &&
           if s.isJunction then s.boundary in {Sidewalk, Median}
           else s.boundary == Median ||
                (s.boundary == Sidewalk && OnRenderingSide(s)) ||
                (s.boundary == Driving && t.boundary == Driving && OnRenderingSide(s)))))
  {
    var found := Neighbours(s, group);
    if |found| > 0 {
      var t := found[|found| - 1];
      assert t in found;
      assert t.laneId == NeighbourLane(s.laneId, s.orientation);
      if s.orientation == Left && s.laneId > 0 {
        if s.laneId == 1 {
          assert s.laneId * t.laneId == -1;
        } else {
          assert t.laneId == s.laneId - 1 >= 1;
          assert s.laneId * t.laneId >= s.laneId;
        }
      }
    }
  }

  /** A spline point lowered by `offset` units. */
  function Lowered(p: Vec, offset: real): Vec
  {
    Vec(p.x, p.y, p.z - offset)
  }

  /** Driving splines are lane lines; every other kind draws as a road boundary. */
  function SegmentColor(s: RoadSpline, cfg: RenderConfig): Color
  {
    if s.boundary != Driving then cfg.roadBoundariesColor else cfg.laneLinesColor
  }

  /** Segment `i` of DrawSpline: from point i to point i + 1, both lowered by the road-line thickness. */
  function Segment(s: RoadSpline, cfg: RenderConfig, i: nat): Primitive
    requires i + 1 < |s.points|
  {
    var off := cfg.roadLineThickness;
    Line(At(Lowered(s.points[i], off)), At(Lowered(s.points[i + 1], off)),
         SegmentColor(s, cfg), SdpgWorld, cfg.roadLineThickness)
  }

  /** The first `n` segments of `s`. */
  function SegmentsUpTo(s: RoadSpline, cfg: RenderConfig, n: nat): (r: seq<Primitive>)
    requires n < |s.points|
    ensures |r| == n
    ensures forall i :: 0 <= i < n ==> r[i] == Segment(s, cfg, i)
  {
    if n == 0 then [] else SegmentsUpTo(s, cfg, n - 1) + [Segment(s, cfg, n - 1)]
  }

  /** What DrawSpline adds: nothing for fewer than two points, else one segment per consecutive pair. */
  function SplineSegments(s: RoadSpline, cfg: RenderConfig): seq<Primitive>
  {
    if |s.points| < 2 then [] else SegmentsUpTo(s, cfg, |s.points| - 1)
  }

  /** The segments of a spline form one connected polyline through all of its points,
      lowered by the road-line thickness, in its kind's colour and the road-line thickness. */
  lemma SplineSegmentsPolyline(s: RoadSpline, cfg: RenderConfig)
    ensures forall p :: p in SplineSegments(s, cfg) ==>
      p.Line? && p.thickness == cfg.roadLineThickness && p.color == SegmentColor(s, cfg)
    ensures |s.points| < 2 ==> SplineSegments(s, cfg) == []
    ensures |s.points| >= 2 ==>
      |SplineSegments(s, cfg)| == |s.points| - 1 &&
      SplineSegments(s, cfg)[0].start == At(Lowered(s.points[0], cfg.roadLineThickness)) &&
      SplineSegments(s, cfg)[|s.points| - 2].end == At(Lowered(s.points[|s.points| - 1], cfg.roadLineThickness))
    ensures forall i :: 1 <= i < |SplineSegments(s, cfg)| ==>
      SplineSegments(s, cfg)[i - 1].end == SplineSegments(s, cfg)[i].start
  {
  }

  /** The distinct road ids of the first `n` splines, in first-appearance order. */
  function RoadOrderUpTo(splines: seq<RoadSpline>, n: nat): (ids: seq<int>)
    requires n <= |splines|
  {
    if n == 0 then []
    else
      var rest := RoadOrderUpTo(splines, n - 1);
      var id := splines[n - 1].roadId;
      if id in rest then rest else rest + [id]
  }

  /** The key order of SplinesByRoadId. */
  function RoadOrder(splines: seq<RoadSpline>): seq<int>
  {
    RoadOrderUpTo(splines, |splines|)
  }

  /** The splines of road `id` among the first `n`, in actor order. */
  function GroupUpTo(splines: seq<RoadSpline>, n: nat, id: int): (g: seq<RoadSpline>)
    requires n <= |splines|
  {
    if n == 0 then []
    else
      var rest := GroupUpTo(splines, n - 1, id);
      if splines[n - 1].roadId == id then rest + [splines[n - 1]] else rest
  }

  /** The value SplinesByRoadId holds for `id`. */
  function GroupOf(splines: seq<RoadSpline>, id: int): seq<RoadSpline>
  {
    GroupUpTo(splines, |splines|, id)
  }

  lemma {:induction false} RoadOrderUpToContents(splines: seq<RoadSpline>, n: nat)
    requires n <= |splines|
    ensures forall id :: id in RoadOrderUpTo(splines, n) <==> exists j :: 0 <= j < n && splines[j].roadId == id
    ensures forall i, j :: 0 <= i < j < |RoadOrderUpTo(splines, n)| ==> RoadOrderUpTo(splines, n)[i] != RoadOrderUpTo(splines, n)[j]
    decreases n
  {
    if n > 0 {
      RoadOrderUpToContents(splines, n - 1);
    }
  }

  /** The key order lists every road id of the splines, each once. */
  lemma RoadOrderContents(splines: seq<RoadSpline>)
    ensures forall id :: id in RoadOrder(splines) <==> exists t :: t in splines && t.roadId == id
    ensures forall i, j :: 0 <= i < j < |RoadOrder(splines)| ==> RoadOrder(splines)[i] != RoadOrder(splines)[j]
  {
    RoadOrderUpToContents(splines, |splines|);
  }

  lemma {:induction false} GroupUpToContents(splines: seq<RoadSpline>, n: nat, id: int)
    requires n <= |splines|
    ensures forall t :: t in GroupUpTo(splines, n, id) <==> (exists j :: 0 <= j < n && splines[j] == t) && t.roadId == id
    decreases n
  {
    if n > 0 {
      GroupUpToContents(splines, n - 1, id);
    }
  }

  /** A road's group holds exactly the splines with that road id; it is empty exactly
      when no spline has the id. */
  lemma GroupOfContents(splines: seq<RoadSpline>, id: int)
    ensures forall t :: t in GroupOf(splines, id) <==> t in splines && t.roadId == id
    ensures GroupOf(splines, id) == [] <==> forall t :: t in splines ==> t.roadId != id
  {
    GroupUpToContents(splines, |splines|, id);
    if GroupOf(splines, id) != [] {
      assert GroupOf(splines, id)[0] in GroupOf(splines, id);
    }
  }

  /** A road id that does not appear among the first `n` splines has no splines there. */
  lemma {:induction false} GroupAbsent(splines: seq<RoadSpline>, n: nat, id: int)
    requires n <= |splines| && id !in RoadOrderUpTo(splines, n)
    ensures GroupUpTo(splines, n, id) == []
    decreases n
  {
    if n > 0 {
      GroupAbsent(splines, n - 1, id);
    }
  }

  /** The tick's grouping loop: the key order of SplinesByRoadId and its groups. */
  method GroupByRoadId(splines: seq<RoadSpline>) returns (order: seq<int>, groups: map<int, seq<RoadSpline>>)
    ensures order == RoadOrder(splines)
    ensures forall id :: id in groups <==> id in order
    ensures forall id :: id in groups ==> groups[id] == GroupOf(splines, id)
    ensures forall i :: 0 <= i < |order| ==> order[i] in groups
  {
    order := [];
    groups := map[];
    var k := 0;
    while k < |splines|
      invariant 0 <= k <= |splines|
      invariant order == RoadOrderUpTo(splines, k)
      invariant forall id :: id in groups <==> id in order
      invariant forall id :: id in groups ==> groups[id] == GroupUpTo(splines, k, id)
    {
      var t := splines[k];
      if t.roadId !in groups {
        GroupAbsent(splines, k, t.roadId);
        order := order + [t.roadId];
        groups := groups[t.roadId := []];
      }
      groups := groups[t.roadId := groups[t.roadId] + [t]];
      k := k + 1;
    }
  }

  /** The spline renders: it participates and its neighbours in its road decide to draw it. */
  predicate Renders(t: RoadSpline, group: seq<RoadSpline>)
  {
    Participates(t) && RenderDecision(t, Neighbours(t, group))
  }

  /** The lines drawn for the first `n` splines of `group`, each decided against the whole group. */
  function GroupLines(group: seq<RoadSpline>, n: nat, cfg: RenderConfig): seq<Primitive>
    requires n <= |group|
  {
    if n == 0 then []
    else
      var t := group[n - 1];
      GroupLines(group, n - 1, cfg) + (if Renders(t, group) then SplineSegments(t, cfg) else [])
  }

  /** The lines drawn for the roads `ids`, in order. */
  function RoadsLines(splines: seq<RoadSpline>, ids: seq<int>, cfg: RenderConfig): seq<Primitive>
  {
    if |ids| == 0 then []
    else
      var g := GroupOf(splines, ids[|ids| - 1]);
      RoadsLines(splines, ids[..|ids| - 1], cfg) + GroupLines(g, |g|, cfg)
  }

  /** The lines of one more road. */
  lemma RoadsLinesStep(splines: seq<RoadSpline>, ids: seq<int>, r: nat, cfg: RenderConfig)
    requires r < |ids|
    ensures RoadsLines(splines, ids[..r + 1], cfg) ==
      RoadsLines(splines, ids[..r], cfg) + GroupLines(GroupOf(splines, ids[r]), |GroupOf(splines, ids[r])|, cfg)
  {
    assert ids[..r + 1][..r] == ids[..r];
  }

  /** Everything the route-line pass adds to the persistent batch. */
  function RouteLines(splines: seq<RoadSpline>, cfg: RenderConfig): seq<Primitive>
  {
    RoadsLines(splines, RoadOrder(splines), cfg)
  }

  lemma {:induction false} GroupLinesSource(group: seq<RoadSpline>, n: nat, cfg: RenderConfig, p: Primitive)
    requires n <= |group|
    requires p in GroupLines(group, n, cfg)
    ensures exists t :: t in group && Renders(t, group) && p in SplineSegments(t, cfg)
  {
    if n > 0 {
      var t := group[n - 1];
      if p in GroupLines(group, n - 1, cfg) {
        GroupLinesSource(group, n - 1, cfg, p);
      } else {
        assert t in group && Renders(t, group) && p in SplineSegments(t, cfg);
      }
    }
  }

  lemma {:induction false} RoadsLinesSource(splines: seq<RoadSpline>, ids: seq<int>, cfg: RenderConfig, p: Primitive)
    requires p in RoadsLines(splines, ids, cfg)
    ensures exists t :: t in splines && Renders(t, GroupOf(splines, t.roadId)) && p in SplineSegments(t, cfg)
  {
    if |ids| > 0 {
      var id := ids[|ids| - 1];
      var g := GroupOf(splines, id);
      if p in RoadsLines(splines, ids[..|ids| - 1], cfg) {
        RoadsLinesSource(splines, ids[..|ids| - 1], cfg, p);
      } else {
        GroupLinesSource(g, |g|, cfg, p);
        var t :| t in g && Renders(t, g) && p in SplineSegments(t, cfg);
        GroupOfContents(splines, id);
        assert t.roadId == id;
      }
    }
  }

  /** Every route line is a segment of a spline that renders against the splines of its
      own road, so it is a road-line-thickness line in a lane-line or road-boundary colour,
      and never comes from a shoulder or an unknown boundary kind. */
  lemma RouteLinesComeFromRenderedSplines(splines: seq<RoadSpline>, cfg: RenderConfig, p: Primitive)
    requires p in RouteLines(splines, cfg)
    ensures exists t :: (t in splines && Renders(t, GroupOf(splines, t.roadId)) && p in SplineSegments(t, cfg) &&
      t.boundary in {Driving, Sidewalk, Median})
    ensures p.Line? && p.thickness == cfg.roadLineThickness &&
      p.color in {cfg.laneLinesColor, cfg.roadBoundariesColor}
  {
    RoadsLinesSource(splines, RoadOrder(splines), cfg, p);
    var t :| t in splines && Renders(t, GroupOf(splines, t.roadId)) && p in SplineSegments(t, cfg);
    RenderRule(t, GroupOf(splines, t.roadId));
    SplineSegmentsPolyline(t, cfg);
  }

  /** The lines of a road grow by appending: those of the first `m` splines are a prefix
      of those of the first `n`. */
  lemma {:induction false} GroupLinesPrefix(group: seq<RoadSpline>, m: nat, n: nat, cfg: RenderConfig)
    requires m <= n <= |group|
    ensures GroupLines(group, m, cfg) <= GroupLines(group, n, cfg)
    decreases n
  {
    if m < n {
      GroupLinesPrefix(group, m, n - 1, cfg);
      var rest := GroupLines(group, n - 1, cfg);
      assert GroupLines(group, n, cfg)[..|rest|] == rest;
    }
  }

  /** Every segment of the `m`-th spline of a road, when it renders, is among the road's
      lines from `m` on. */
  lemma GroupLinesInclude(group: seq<RoadSpline>, m: nat, n: nat, cfg: RenderConfig, p: Primitive)
    requires 0 < m <= n <= |group|
    requires Renders(group[m - 1], group) && p in SplineSegments(group[m - 1], cfg)
    ensures p in GroupLines(group, n, cfg)
  {
    var upto := GroupLines(group, m, cfg);
    assert p in upto;
    GroupLinesPrefix(group, m, n, cfg);
    var k :| 0 <= k < |upto| && upto[k] == p;
    assert GroupLines(group, n, cfg)[k] == p;
  }

  lemma {:induction false} RoadsLinesInclude(splines: seq<RoadSpline>, ids: seq<int>, t: RoadSpline, cfg: RenderConfig, p: Primitive)
    requires t in splines && t.roadId in ids
    requires Renders(t, GroupOf(splines, t.roadId)) && p in SplineSegments(t, cfg)
    ensures p in RoadsLines(splines, ids, cfg)
  {
    var id := ids[|ids| - 1];
    if id == t.roadId {
      var g := GroupOf(splines, id);
      GroupOfContents(splines, id);
      var i :| 0 <= i < |g| && g[i] == t;
      GroupLinesInclude(g, i + 1, |g|, cfg, p);
    } else {
      assert t.roadId in ids[..|ids| - 1] by {
        var k :| 0 <= k < |ids| && ids[k] == t.roadId;
        assert ids[..|ids| - 1][k] == ids[k];
      }
      RoadsLinesInclude(splines, ids[..|ids| - 1], t, cfg, p);
    }
  }

  /** The converse: every segment of every spline that renders against the splines of
      its own road is among the route lines. */
  lemma RouteLinesIncludeRenderedSplines(splines: seq<RoadSpline>, cfg: RenderConfig, t: RoadSpline, p: Primitive)
    requires t in splines && Renders(t, GroupOf(splines, t.roadId)) && p in SplineSegments(t, cfg)
    ensures p in RouteLines(splines, cfg)
  {
    RoadOrderContents(splines);
    RoadsLinesInclude(splines, RoadOrder(splines), t, cfg, p);
  }
}
