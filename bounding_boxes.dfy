/** The pure helpers of the bounding-box example client: decoding an instance
    segmentation image, the tight 2D box of one actor's pixels, the canvas test,
    the cube edge list and the semantic label table. Images are rows of pixels,
    indexed `[y][x]` as a numpy array of shape (height, width). */
module BoundingBoxes {
  import opened Wrappers
  import opened Geometry
  import Classifier

  /** One pixel of the raw image, channels in array order 0..3 (B, G, R, A). */
  datatype Pixel = Pixel(c0: byte, c1: byte, c2: byte, c3: byte)

  type Image = seq<seq<Pixel>>
  type Grid = seq<seq<int>>

  const U16Modulus := 65536

  /** A value cast to `np.uint16` (or a uint16 sum) wraps modulo 2^16. */
  function WrapU16(x: int): int
  {
    x % U16Modulus
  }

  /** The actor id of a pixel, in uint16 arithmetic: channel 1 plus channel 0 shifted left by 8. */
  function DecodeActorId(p: Pixel): (id: int)
    ensures id == p.c1 as int + 256 * p.c0 as int
    ensures 0 <= id < U16Modulus
  {
    WrapU16(WrapU16(p.c1 as int) + WrapU16(WrapU16(p.c0 as int) * 256))
  }

  /** The id splits back into the two channels it was built from. */
  lemma ActorIdRoundTrip(p: Pixel)
    ensures DecodeActorId(p) / 256 == p.c0 as int && DecodeActorId(p) % 256 == p.c1 as int
  {
    var id := DecodeActorId(p);
    assert id == p.c0 as int * 256 + p.c1 as int;
  }

  /** Every 16-bit id is the decoding of some pixel. */
  lemma EveryActorIdIsDecodable(id: int)
    requires 0 <= id < U16Modulus
    ensures exists p: Pixel :: DecodeActorId(p) == id
  {
    var p := Pixel((id / 256) as byte, (id % 256) as byte, 0, 0);
    assert DecodeActorId(p) == id;
  }

  /** decode_instance_segmentation: the label plane and the actor-id plane. */
  function DecodeInstanceSegmentation(img: Image): (planes: (Grid, Grid))
    ensures |planes.0| == |img| && |planes.1| == |img|
    ensures forall y :: 0 <= y < |img| ==> |planes.0[y]| == |img[y]| && |planes.1[y]| == |img[y]|
    ensures forall y, x :: 0 <= y < |img| && 0 <= x < |img[y]| ==>
      planes.0[y][x] == img[y][x].c2 as int &&
      planes.1[y][x] / 256 == img[y][x].c0 as int && planes.1[y][x] % 256 == img[y][x].c1 as int
  {
    var labels := seq(|img|, y requires 0 <= y < |img| =>
      seq(|img[y]|, x requires 0 <= x < |img[y]| => img[y][x].c2 as int));
    var ids := seq(|img|, y requires 0 <= y < |img| =>
      seq(|img[y]|, x requires 0 <= x < |img[y]| => DecodeActorId(img[y][x])));
    assert forall y, x :: 0 <= y < |img| && 0 <= x < |img[y]| ==>
      ids[y][x] / 256 == img[y][x].c0 as int && ids[y][x] % 256 == img[y][x].c1 as int by {
      forall y, x | 0 <= y < |img| && 0 <= x < |img[y]|
        ensures ids[y][x] / 256 == img[y][x].c0 as int && ids[y][x] % 256 == img[y][x].c1 as int
      {
        ActorIdRoundTrip(img[y][x]);
      }
    }
    (labels, ids)
  }

  /** A pixel position: row `y`, column `x`. */
  datatype Coord = Coord(y: int, x: int)

  /** The pixel at `c` exists in `ids` and carries `id` (the mask `actor_ids == actor_id`). */
  ghost predicate Matches(ids: Grid, id: int, c: Coord)
  {
    0 <= c.y < |ids| && 0 <= c.x < |ids[c.y]| && ids[c.y][c.x] == id
  }

  /** `a` comes strictly before `b` in row-major order. */
  predicate RowMajorBefore(a: Coord, b: Coord)
  {
    a.y < b.y || (a.y == b.y && a.x < b.x)
  }

  /** The matching columns of row `y`, left to right. */
  function RowCoords(row: seq<int>, y: int, id: int): (cs: seq<Coord>)
    ensures forall c :: c in cs <==> c.y == y && 0 <= c.x < |row| && row[c.x] == id
    ensures forall i, j :: 0 <= i < j < |cs| ==> cs[i].x < cs[j].x
  {
    if |row| == 0 then []
    else
      var last := |row| - 1;
      RowCoords(row[..last], y, id) + (if row[last] == id then [Coord(y, last)] else [])
  }

  /** np.where(mask): every matching position, in row-major order. */
  function MaskCoords(ids: Grid, id: int): (cs: seq<Coord>)
    ensures forall c :: c in cs <==> Matches(ids, id, c)
    ensures forall i, j :: 0 <= i < j < |cs| ==> RowMajorBefore(cs[i], cs[j])
  {
    if |ids| == 0 then []
    else
      var last := |ids| - 1;
      var front := MaskCoords(ids[..last], id);
      var row := RowCoords(ids[last], last, id);
      assert forall i :: 0 <= i < |front| ==> front[i].y < last by {
        forall i | 0 <= i < |front|
          ensures front[i].y < last
        {
          assert front[i] in front;
        }
      }
      assert forall j :: 0 <= j < |row| ==> row[j].y == last by {
        forall j | 0 <= j < |row|
          ensures row[j].y == last
        {
          assert row[j] in row;
        }
      }
      front + row
  }

  /** The smallest element of a non-empty sequence. */
  function SeqMin(s: seq<int>): (m: int)
    requires |s| > 0
    ensures m in s
    ensures forall i :: 0 <= i < |s| ==> m <= s[i]
  {
    if |s| == 1 then s[0]
    else
      var r := SeqMin(s[..|s| - 1]);
      if s[|s| - 1] < r then s[|s| - 1] else r
  }

  /** The largest element of a non-empty sequence. */
  function SeqMax(s: seq<int>): (m: int)
    requires |s| > 0
    ensures m in s
    ensures forall i :: 0 <= i < |s| ==> s[i] <= m
  {
    if |s| == 1 then s[0]
    else
      var r := SeqMax(s[..|s| - 1]);
      if s[|s| - 1] > r then s[|s| - 1] else r
  }

  function Xs(cs: seq<Coord>): (xs: seq<int>)
    ensures |xs| == |cs| && forall i :: 0 <= i < |cs| ==> xs[i] == cs[i].x
  {
    seq(|cs|, i requires 0 <= i < |cs| => cs[i].x)
  }

  function Ys(cs: seq<Coord>): (ys: seq<int>)
    ensures |ys| == |cs| && forall i :: 0 <= i < |cs| ==> ys[i] == cs[i].y
  {
    seq(|cs|, i requires 0 <= i < |cs| => cs[i].y)
  }

  /** The dictionary bbox_2d_for_actor returns. */
  datatype Bbox2d = Bbox2d(actorId: int, semanticLabel: int, xmin: int, ymin: int, xmax: int, ymax: int)

  /** The label plane is indexed by the same positions as the id plane. */
  ghost predicate SameShape(ids: Grid, labels: Grid)
  {
    |labels| == |ids| && forall y :: 0 <= y < |ids| ==> |labels[y]| == |ids[y]|
  }

  /** bbox_2d_for_actor: None when no pixel carries the id, otherwise the
      extremes of the matching columns and rows and the label of the first match. */
  function Bbox2dForActor(ids: Grid, labels: Grid, actorId: int): (r: Option<Bbox2d>)
    requires SameShape(ids, labels)
    ensures r.Some? ==> r.value.actorId == actorId
  {
    var cs := MaskCoords(ids, actorId);
    if |cs| == 0 then None
    else
      assert cs[0] in cs;
      var xs := Xs(cs);
      var ys := Ys(cs);
      Some(Bbox2d(actorId, labels[cs[0].y][cs[0].x], SeqMin(xs), SeqMin(ys), SeqMax(xs), SeqMax(ys)))
  }

  /** The actor is absent exactly when no pixel carries its id. */
  lemma Bbox2dAbsentIff(ids: Grid, labels: Grid, actorId: int)
    requires SameShape(ids, labels)
    ensures Bbox2dForActor(ids, labels, actorId).None? <==> forall c :: !Matches(ids, actorId, c)
  {
    var cs := MaskCoords(ids, actorId);
    if |cs| > 0 {
      assert cs[0] in cs;
    }
  }

  /** A returned box is well ordered and holds every pixel of the actor. */
  lemma Bbox2dContainsMask(ids: Grid, labels: Grid, actorId: int)
    requires SameShape(ids, labels)
    requires Bbox2dForActor(ids, labels, actorId).Some?
    ensures var b := Bbox2dForActor(ids, labels, actorId).value;
      b.xmin <= b.xmax && b.ymin <= b.ymax &&
      forall c :: Matches(ids, actorId, c) ==> b.xmin <= c.x <= b.xmax && b.ymin <= c.y <= b.ymax
  {
    var b := Bbox2dForActor(ids, labels, actorId).value;
    var cs := MaskCoords(ids, actorId);
    var xs, ys := Xs(cs), Ys(cs);
    assert xs[0] == cs[0].x && ys[0] == cs[0].y;
    forall c | Matches(ids, actorId, c)
      ensures b.xmin <= c.x <= b.xmax && b.ymin <= c.y <= b.ymax
    {
      var i :| 0 <= i < |cs| && cs[i] == c;
      assert xs[i] == c.x && ys[i] == c.y;
    }
  }

  /** A returned box is tight: each of its four bounds is reached by a pixel of the actor. */
  lemma Bbox2dTight(ids: Grid, labels: Grid, actorId: int)
    requires SameShape(ids, labels)
    requires Bbox2dForActor(ids, labels, actorId).Some?
    ensures var b := Bbox2dForActor(ids, labels, actorId).value;
      (exists c :: Matches(ids, actorId, c) && c.x == b.xmin) &&
      (exists c :: Matches(ids, actorId, c) && c.x == b.xmax) &&
      (exists c :: Matches(ids, actorId, c) && c.y == b.ymin) &&
      (exists c :: Matches(ids, actorId, c) && c.y == b.ymax)
  {
    var b := Bbox2dForActor(ids, labels, actorId).value;
    var cs := MaskCoords(ids, actorId);
    var xs, ys := Xs(cs), Ys(cs);
    var i0 :| 0 <= i0 < |xs| && xs[i0] == b.xmin;
    var i1 :| 0 <= i1 < |xs| && xs[i1] == b.xmax;
    var i2 :| 0 <= i2 < |ys| && ys[i2] == b.ymin;
    var i3 :| 0 <= i3 < |ys| && ys[i3] == b.ymax;
    assert cs[i0] in cs && cs[i1] in cs && cs[i2] in cs && cs[i3] in cs;
  }

  /** The returned label is that of the first pixel of the actor in row-major order. */
  lemma Bbox2dLabelOfFirstPixel(ids: Grid, labels: Grid, actorId: int)
    requires SameShape(ids, labels)
    requires Bbox2dForActor(ids, labels, actorId).Some?
    ensures exists c :: (Matches(ids, actorId, c) &&
      Bbox2dForActor(ids, labels, actorId).value.semanticLabel == labels[c.y][c.x] &&
      forall d :: Matches(ids, actorId, d) && d != c ==> RowMajorBefore(c, d))
  {
    var cs := MaskCoords(ids, actorId);
    var c := cs[0];
    assert c in cs;
    forall d | Matches(ids, actorId, d) && d != c
      ensures RowMajorBefore(c, d)
    {
      var j :| 0 <= j < |cs| && cs[j] == d;
      assert j != 0;
    }
  }

  /** point_in_canvas(pos, img_h, img_w). */
  function PointInCanvas(pos: (real, real), imgH: int, imgW: int): bool
  {
    pos.0 >= 0.0 && pos.0 < imgW as real && pos.1 >= 0.0 && pos.1 < imgH as real
  }

  /** A point is in the canvas exactly when the pixel it falls on is a valid index
      into an image of `imgH` rows and `imgW` columns. */
  lemma PointInCanvasIsPixelIndex(pos: (real, real), imgH: int, imgW: int)
    ensures PointInCanvas(pos, imgH, imgW) <==> 0 <= pos.0.Floor < imgW && 0 <= pos.1.Floor < imgH
  {
    assert pos.0.Floor as real <= pos.0 < pos.0.Floor as real + 1.0;
    assert pos.1.Floor as real <= pos.1 < pos.1.Floor as real + 1.0;
  }

  /** EDGES: the bounding-box edges as pairs of vertex numbers, in drawing order. */
  const Edges: seq<(int, int)> :=
    [(0, 1), (1, 3), (3, 2), (2, 0), (0, 4), (4, 5), (5, 1), (5, 7), (7, 6), (6, 4), (6, 2), (7, 3)]

  /** Vertex `v` with bit `bit` (1, 2 or 4) of its number flipped. */
  function FlipBit(v: int, bit: int): int
    requires bit > 0
  {
    if (v / bit) % 2 == 0 then v + bit else v - bit
  }

  /** Two corners of a box whose numbers differ in exactly one of the three bits. */
  predicate OneBitApart(a: int, b: int)
  {
    b == FlipBit(a, 1) || b == FlipBit(a, 2) || b == FlipBit(a, 4)
  }

  /** `a`–`b` is listed, in either direction. */
  predicate IsEdge(a: int, b: int)
  {
    (a, b) in Edges || (b, a) in Edges
  }

  /** Twelve edges between vertices 0..7, no edge listed twice (in either direction). */
  lemma EdgesAreDistinct()
    ensures |Edges| == 12
    ensures forall i :: 0 <= i < |Edges| ==> 0 <= Edges[i].0 < 8 && 0 <= Edges[i].1 < 8
    ensures forall i, j :: 0 <= i < j < |Edges| ==>
      Edges[i] != Edges[j] && Edges[i] != (Edges[j].1, Edges[j].0)
  {
  }

  /** Every listed edge joins two corners one bit apart. */
  lemma EdgesJoinAdjacentCorners()
    ensures forall i :: 0 <= i < |Edges| ==> OneBitApart(Edges[i].0, Edges[i].1)
  {
  }

  /** Every pair of corners one bit apart is listed. */
  lemma AdjacentCornersAreListed(v: int, bit: int)
    requires 0 <= v < 8 && (bit == 1 || bit == 2 || bit == 4)
    ensures IsEdge(v, FlipBit(v, bit))
  {
    if v == 0 { assert Edges[0] == (0, 1) && Edges[3] == (2, 0) && Edges[4] == (0, 4); }
    else if v == 1 { assert Edges[0] == (0, 1) && Edges[1] == (1, 3) && Edges[6] == (5, 1); }
    else if v == 2 { assert Edges[2] == (3, 2) && Edges[3] == (2, 0) && Edges[10] == (6, 2); }
    else if v == 3 { assert Edges[2] == (3, 2) && Edges[1] == (1, 3) && Edges[11] == (7, 3); }
    else if v == 4 { assert Edges[5] == (4, 5) && Edges[9] == (6, 4) && Edges[4] == (0, 4); }
    else if v == 5 { assert Edges[5] == (4, 5) && Edges[7] == (5, 7) && Edges[6] == (5, 1); }
    else if v == 6 { assert Edges[8] == (7, 6) && Edges[9] == (6, 4) && Edges[10] == (6, 2); }
    else { assert Edges[8] == (7, 6) && Edges[7] == (5, 7) && Edges[11] == (7, 3); }
  }

  /** The list is exactly the edge set of a cube whose corners are numbered by three bits. */
  lemma EdgesAreCubeEdges(a: int, b: int)
    requires 0 <= a < 8 && 0 <= b < 8
    ensures IsEdge(a, b) <==> OneBitApart(a, b)
  {
    EdgesJoinAdjacentCorners();
    if OneBitApart(a, b) {
      if b == FlipBit(a, 1) { AdjacentCornersAreListed(a, 1); }
      else if b == FlipBit(a, 2) { AdjacentCornersAreListed(a, 2); }
      else { AdjacentCornersAreListed(a, 4); }
    }
    if (b, a) in Edges {
      OneBitApartSymmetric(b, a);
    }
  }

  /** Being one bit apart is symmetric. */
  lemma OneBitApartSymmetric(a: int, b: int)
    requires 0 <= a < 8 && OneBitApart(a, b)
    ensures OneBitApart(b, a)
  {
  }

  /** The corners joined to `v` by a listed edge. */
  ghost function Neighbours(v: int): set<int>
  {
    set u | 0 <= u < 8 && IsEdge(v, u)
  }

  /** Every corner has exactly three neighbours; with no edge listed twice
      (EdgesAreDistinct) it lies on exactly three edges. */
  lemma EveryVertexHasDegreeThree(v: int)
    requires 0 <= v < 8
    ensures Neighbours(v) == {FlipBit(v, 1), FlipBit(v, 2), FlipBit(v, 4)}
    ensures |Neighbours(v)| == 3
  {
    forall u | 0 <= u < 8
      ensures IsEdge(v, u) <==> OneBitApart(v, u)
    {
      EdgesAreCubeEdges(v, u);
    }
    assert 0 <= FlipBit(v, 1) < 8 && 0 <= FlipBit(v, 2) < 8 && 0 <= FlipBit(v, 4) < 8;
    assert FlipBit(v, 1) != FlipBit(v, 2) && FlipBit(v, 1) != FlipBit(v, 4) && FlipBit(v, 2) != FlipBit(v, 4);
  }

  /** An RGB colour of the client's palette. */
  type Rgb = (int, int, int)

  /** SEMANTIC_MAP: label code to class name and display colour. */
  const SemanticMap: map<int, (string, Rgb)> := map[
    0 := ("unlabelled", (0, 0, 0)), 1 := ("road", (128, 64, 0)), 2 := ("sidewalk", (244, 35, 232)),
    3 := ("building", (70, 70, 70)), 4 := ("wall", (102, 102, 156)), 5 := ("fence", (190, 153, 153)),
    6 := ("pole", (153, 153, 153)), 7 := ("traffic light", (250, 170, 30)),
    8 := ("traffic sign", (220, 220, 0)), 9 := ("vegetation", (107, 142, 35)),
    10 := ("terrain", (152, 251, 152)), 11 := ("sky", (70, 130, 180)),
    12 := ("pedestrian", (220, 20, 60)), 13 := ("rider", (255, 0, 0)),
    14 := ("car", (0, 0, 142)), 15 := ("truck", (0, 0, 70)), 16 := ("bus", (0, 60, 100)),
    17 := ("train", (0, 80, 100)), 18 := ("motorcycle", (0, 0, 230)),
    19 := ("bicycle", (119, 11, 32)), 20 := ("static", (110, 190, 160)),
    21 := ("dynamic", (170, 120, 50)), 22 := ("other", (55, 90, 80)),
    23 := ("water", (45, 60, 150)), 24 := ("road line", (157, 234, 50)),
    25 := ("ground", (81, 0, 81)), 26 := ("bridge", (150, 100, 100)),
    27 := ("rail track", (230, 150, 140)), 28 := ("guard rail", (180, 165, 180))]

  /** The table has an entry for every code 0..28 and for nothing else. */
  lemma SemanticMapKeys(k: int)
    ensures k in SemanticMap <==> 0 <= k <= 28
  {
  }

  /** Every label the server can write into channel 2 has a name and a colour in the table. */
  lemma SemanticMapCoversServerLabels(tag: Classifier.CityObjectLabel)
    ensures Classifier.LabelCode(tag) in SemanticMap
  {
    SemanticMapKeys(Classifier.LabelCode(tag));
  }
}
