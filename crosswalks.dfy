/** The persistent crosswalk pass: the map's crosswalk points are a concatenation of
    closed polygons (each repeats its first point to close), split back into polygons
    and drawn as triangle fans. */
module Crosswalks {
  import opened Wrappers
  import opened Geometry

  /** Map units are metres; the engine draws in centimetres. */
  const MetresToCentimetres: real := 100.0

  /** The first index at or after `from` where `x` occurs in `s`. */
  function FindFrom<T(==)>(s: seq<T>, x: T, from: nat): (r: Option<nat>)
    ensures r.Some? ==> from <= r.value < |s| && s[r.value] == x
    decreases |s| - from
  {
    if from >= |s| then None
    else if s[from] == x then Some(from)
    else FindFrom(s, x, from + 1)
  }

  /** The search finds the first occurrence, and finds none exactly when there is none. */
  lemma {:induction false} FindFromFirst<T>(s: seq<T>, x: T, from: nat)
    ensures FindFrom(s, x, from).Some? ==> forall j :: from <= j < FindFrom(s, x, from).value ==> s[j] != x
    ensures FindFrom(s, x, from).None? <==> forall j :: from <= j < |s| ==> s[j] != x
    decreases |s| - from
  {
    if from < |s| && s[from] != x {
      FindFromFirst(s, x, from + 1);
    }
  }

  /** An occurrence with none before it is the one found. */
  lemma FindFromAt<T>(s: seq<T>, x: T, from: nat, k: nat)
    requires from <= k < |s| && s[k] == x
    requires forall j :: from <= j < k ==> s[j] != x
    ensures FindFrom(s, x, from) == Some(k)
  {
    FindFromFirst(s, x, from);
  }

  /** A polygon as the map lists it before its closing point: at least one point, and
      its first point does not recur inside it. */
  predicate ValidRun<T(==)>(r: seq<T>)
  {
    |r| >= 1 && forall j :: 1 <= j < |r| ==> r[j] != r[0]
  }

  /** The polygons the splitter closes, in order: each runs from its first point up to
      (not including) the next occurrence of that point; the scan resumes after it, and
      an unclosed tail is dropped. */
  function ClosedRuns<T(==)>(s: seq<T>): (runs: seq<seq<T>>)
    decreases |s|
  {
    if |s| == 0 then []
    else
      match FindFrom(s, s[0], 1)
      case None => []
      case Some(k) => [s[..k]] + ClosedRuns(s[k + 1..])
  }

  /** Every polygon split off is well formed: its first point does not recur in it. */
  lemma {:induction false} ClosedRunsAreValid<T>(s: seq<T>)
    ensures forall i :: 0 <= i < |ClosedRuns(s)| ==> ValidRun(ClosedRuns(s)[i])
    decreases |s|
  {
    if |s| > 0 {
      FindFromFirst(s, s[0], 1);
      match FindFrom(s, s[0], 1)
      case None =>
      case Some(k) =>
        ClosedRunsAreValid(s[k + 1..]);
        var runs := ClosedRuns(s);
        assert runs == [s[..k]] + ClosedRuns(s[k + 1..]);
        assert ValidRun(s[..k]);
    }
  }

  /** What follows the last closed polygon. */
  function UnclosedTail<T(==)>(s: seq<T>): seq<T>
    decreases |s|
  {
    if |s| == 0 then []
    else
      match FindFrom(s, s[0], 1)
      case None => s
      case Some(k) => UnclosedTail(s[k + 1..])
  }

  /** A polygon followed by its first point again. */
  function Closed<T(==)>(r: seq<T>): seq<T>
  {
    if |r| == 0 then [] else r + [r[0]]
  }

  /** The point list of a sequence of polygons, each closed. */
  function Closing<T(==)>(runs: seq<seq<T>>): seq<T>
  {
    if |runs| == 0 then [] else Closed(runs[0]) + Closing(runs[1..])
  }

  lemma ClosingCons<T>(r: seq<T>, rest: seq<seq<T>>)
    ensures Closing([r] + rest) == Closed(r) + Closing(rest)
  {
    assert ([r] + rest)[1..] == rest;
  }

  /** Splitting the closing of well-formed polygons gives back exactly those polygons. */
  lemma {:induction false} ClosedRunsOfClosing<T>(runs: seq<seq<T>>)
    requires forall i :: 0 <= i < |runs| ==> ValidRun(runs[i])
    ensures ClosedRuns(Closing(runs)) == runs
    decreases |runs|
  {
    if |runs| > 0 {
      var r := runs[0];
      var rest := Closing(runs[1..]);
      var s := Closing(runs);
      assert s == r + [r[0]] + rest;
      ConcatParts(r, r[0], rest);
      FindFromAt(s, s[0], 1, |r|);
      ClosedRunsOfClosing(runs[1..]);
      assert runs == [r] + runs[1..];
    }
  }

  /** Every point list is the closing of the polygons split from it, followed by a
      tail in which the first point never recurs. */
  lemma {:induction false} ClosingOfClosedRuns<T>(s: seq<T>)
    ensures s == Closing(ClosedRuns(s)) + UnclosedTail(s)
    ensures var t := UnclosedTail(s); |t| == 0 || FindFrom(t, t[0], 1).None?
    decreases |s|
  {
    if |s| > 0 {
      match FindFrom(s, s[0], 1)
      case None =>
      case Some(k) =>
        var t := s[k + 1..];
        ClosingOfClosedRuns(t);
        ClosingCons(s[..k], ClosedRuns(t));
        SplitAt(s, k);
        AppendAssoc(Closed(s[..k]), Closing(ClosedRuns(t)), UnclosedTail(t));
    }
  }

  /** The first polygon closes at `m`; the split resumes after its closing point. */
  lemma ClosedRunsCons<T>(s: seq<T>, m: nat)
    requires 0 < |s| && FindFrom(s, s[0], 1) == Some(m)
    ensures ClosedRuns(s) == [s[..m]] + ClosedRuns(s[m + 1..])
  {
  }

  /** The triangle fan the splitter builds for a polygon of `n` points. */
  function FanIndices(n: nat): (r: seq<int>)
    ensures |r| == if n < 3 then 0 else 3 * (n - 2)
  {
    if n < 3 then [] else FanIndices(n - 1) + [0, n - 2, n - 1]
  }

  /** The fan is the triangles (0, t + 1, t + 2) for t = 0 .. n - 3, so every index names
      a vertex of the polygon. */
  lemma {:induction false} FanIndicesShape(n: nat)
    ensures forall t :: 0 <= t < n - 2 ==>
      FanIndices(n)[3 * t] == 0 && FanIndices(n)[3 * t + 1] == t + 1 && FanIndices(n)[3 * t + 2] == t + 2
    ensures forall i :: 0 <= i < |FanIndices(n)| ==> 0 <= FanIndices(n)[i] < n
  {
    if n >= 3 {
      FanIndicesShape(n - 1);
      var prev := FanIndices(n - 1);
      assert FanIndices(n) == prev + [0, n - 2, n - 1];
      forall t | 0 <= t < n - 2
        ensures FanIndices(n)[3 * t] == 0 && FanIndices(n)[3 * t + 1] == t + 1 && FanIndices(n)[3 * t + 2] == t + 2
      {
        if t < n - 3 {
          assert 3 * t + 2 < |prev|;
        } else {
          assert 3 * t == |prev|;
        }
      }
    }
  }

  /** The splitter's triangulation loop. */
  method FanTriangulation(n: nat) returns (indices: seq<int>)
    ensures indices == FanIndices(n)
  {
    indices := [];
    var j := 1;
    while j < n - 1
      invariant 1 <= j <= if n >= 2 then n - 1 else 1
      invariant indices == FanIndices(j + 1)
    {
      indices := indices + [0, j, j + 1];
      j := j + 1;
    }
  }

  /** A crosswalk point in engine units. */
  function ToEngine(p: Vec): Point
  {
    At(Scale(MetresToCentimetres, p))
  }

  /** A polygon's points in engine units, in order. */
  function EngineVertices(run: seq<Vec>): (vs: seq<Point>)
    ensures |vs| == |run|
  {
    if |run| == 0 then [] else EngineVertices(run[..|run| - 1]) + [ToEngine(run[|run| - 1])]
  }

  /** The vertices are the polygon's points, each scaled to engine units. */
  lemma {:induction false} EngineVerticesAreScaled(run: seq<Vec>)
    ensures forall i :: 0 <= i < |run| ==> EngineVertices(run)[i] == At(Scale(100.0, run[i]))
  {
    if |run| > 0 {
      EngineVerticesAreScaled(run[..|run| - 1]);
    }
  }

  /** Adding a point to a polygon adds its engine-unit vertex at the end. */
  lemma EngineVerticesSnoc(run: seq<Vec>, p: Vec)
    ensures EngineVertices(run + [p]) == EngineVertices(run) + [ToEngine(p)]
  {
    assert (run + [p])[..|run|] == run;
  }

  /** The mesh drawn for an open polygon's vertices when it closes: none for fewer than
      three points, else a triangle fan over them. */
  function PolygonMesh(vertices: seq<Point>, color: Color): seq<Primitive>
  {
    if |vertices| >= 3 then [Mesh(vertices, FanIndices(|vertices|), color, SdpgWorld)] else []
  }

  /** The meshes the splitter still draws with `rest` left to read and the polygon
      opened at `first` holding the vertices `open`: a point equal to `first` closes and
      draws the polygon and the point after it opens a new one; any other point joins
      the polygon. */
  function Scan(rest: seq<Vec>, color: Color, first: Vec, open: seq<Point>): seq<Primitive>
    decreases |rest|
  {
    if |rest| == 0 then []
    else if rest[0] == first then
      PolygonMesh(open, color) +
      (if |rest| > 1 then Scan(rest[2..], color, rest[1], [ToEngine(rest[1])]) else [])
    else Scan(rest[1..], color, first, open + [ToEngine(rest[0])])
  }

  /** One step of the scan, read at index `i` of the whole point list. */
  lemma ScanAt(points: seq<Vec>, i: nat, color: Color, first: Vec, open: seq<Point>)
    requires i < |points|
    ensures Scan(points[i..], color, first, open) ==
      if points[i] == first then
        PolygonMesh(open, color) +
        (if i + 1 < |points| then Scan(points[i + 2..], color, points[i + 1], [ToEngine(points[i + 1])]) else [])
      else Scan(points[i + 1..], color, first, open + [ToEngine(points[i])])
  {
    var r := points[i..];
    assert r[0] == points[i] && r[1..] == points[i + 1..];
    if i + 1 < |points| {
      assert r[1] == points[i + 1] && r[2..] == points[i + 2..];
    }
  }

  /** With the open polygon `ps` read so far, what the scan still draws is the meshes of
      the polygons split from `ps` followed by the rest of the list. */
  lemma {:induction false} ScanMeshes(ps: seq<Vec>, rest: seq<Vec>, color: Color)
    requires ValidRun(ps)
    ensures Scan(rest, color, ps[0], EngineVertices(ps)) == MeshesFor(ClosedRuns(ps + rest), color)
    decreases |rest|
  {
    var s := ps + rest;
    if |rest| == 0 {
      assert s == ps;
      FindFromFirst(ps, ps[0], 1);
    } else if rest[0] == ps[0] {
      var tail := rest[1..];
      assert rest == [ps[0]] + tail;
      AppendAssoc(ps, [ps[0]], tail);
      ConcatParts(ps, ps[0], tail);
      FindFromAt(s, s[0], 1, |ps|);
      ClosedRunsCons(s, |ps|);
      MeshesForCons(ps, ClosedRuns(tail), color);
      MeshesForOne(ps, color);
      if |tail| > 0 {
        assert EngineVertices([tail[0]]) == [ToEngine(tail[0])];
        ScanMeshes([tail[0]], tail[1..], color);
        assert [tail[0]] + tail[1..] == tail;
        assert rest[2..] == tail[1..] && rest[1] == tail[0];
      }
    } else {
      var grown := ps + [rest[0]];
      assert ValidRun(grown);
      AppendAssoc(ps, [rest[0]], rest[1..]);
      assert [rest[0]] + rest[1..] == rest;
      EngineVerticesSnoc(ps, rest[0]);
      ScanMeshes(grown, rest[1..], color);
    }
  }

  /** The scan opened at the first point draws exactly the crosswalk meshes. */
  lemma ScanDrawsCrosswalks(points: seq<Vec>, color: Color)
    requires |points| > 0
    ensures Scan(points[1..], color, points[0], [ToEngine(points[0])]) == CrosswalkMeshes(points, color)
  {
    assert EngineVertices([points[0]]) == [ToEngine(points[0])];
    ScanMeshes([points[0]], points[1..], color);
    assert [points[0]] + points[1..] == points;
  }

  /** The mesh drawn for a closed polygon. */
  function CrosswalkMesh(run: seq<Vec>, color: Color): Primitive
  {
    Mesh(EngineVertices(run), FanIndices(|run|), color, SdpgWorld)
  }

  /** The meshes drawn for `runs`, in order: polygons with fewer than three points draw nothing. */
  function MeshesFor(runs: seq<seq<Vec>>, color: Color): (ms: seq<Primitive>)
    ensures |ms| <= |runs|
  {
    if |runs| == 0 then []
    else (if |runs[0]| >= 3 then [CrosswalkMesh(runs[0], color)] else []) + MeshesFor(runs[1..], color)
  }

  /** The meshes of one polygon followed by others. */
  lemma MeshesForCons(run: seq<Vec>, rest: seq<seq<Vec>>, color: Color)
    ensures MeshesFor([run] + rest, color) == MeshesFor([run], color) + MeshesFor(rest, color)
  {
    assert ([run] + rest)[1..] == rest;
    assert [run][1..] == [];
  }

  /** A single polygon draws the mesh the splitter builds for its vertices. */
  lemma MeshesForOne(run: seq<Vec>, color: Color)
    ensures MeshesFor([run], color) == PolygonMesh(EngineVertices(run), color)
  {
    assert [run][1..] == [];
  }

  /** Everything the crosswalk pass draws for the map's point list. */
  function CrosswalkMeshes(points: seq<Vec>, color: Color): seq<Primitive>
  {
    MeshesFor(ClosedRuns(points), color)
  }

  /** Each crosswalk mesh is a fan over the polygon's points in engine units, in the
      crosswalk colour, with one triangle per point beyond the second. */
  lemma {:induction false} CrosswalkMeshesShape(runs: seq<seq<Vec>>, color: Color, m: Primitive)
    requires m in MeshesFor(runs, color)
    ensures m.Mesh? && m.color == color && |m.vertices| >= 3 &&
      |m.indices| == 3 * (|m.vertices| - 2) &&
      forall i :: 0 <= i < |m.indices| ==> 0 <= m.indices[i] < |m.vertices|
    ensures exists r :: r in runs && |r| >= 3 && m == CrosswalkMesh(r, color)
    decreases |runs|
  {
    if |runs[0]| >= 3 && m == CrosswalkMesh(runs[0], color) {
      FanIndicesShape(|runs[0]|);
    } else {
      CrosswalkMeshesShape(runs[1..], color, m);
    }
  }

  /** Two closed triangles listed back to back, each closed by repeating its first point,
      are split into each triangle's three points. */
  lemma TwoPolygonsExample()
    ensures var a, b, c := Vec(1.0, 0.0, 0.0), Vec(2.0, 0.0, 0.0), Vec(3.0, 0.0, 0.0);
      var d, e, f := Vec(4.0, 0.0, 0.0), Vec(5.0, 0.0, 0.0), Vec(6.0, 0.0, 0.0);
      ClosedRuns([a, b, c, a, d, e, f, d]) == [[a, b, c], [d, e, f]]
  {
    var a, b, c := Vec(1.0, 0.0, 0.0), Vec(2.0, 0.0, 0.0), Vec(3.0, 0.0, 0.0);
    var d, e, f := Vec(4.0, 0.0, 0.0), Vec(5.0, 0.0, 0.0), Vec(6.0, 0.0, 0.0);
    var runs := [[a, b, c], [d, e, f]];
    assert Closing(runs[1..][1..]) == [];
    assert Closing(runs) == [a, b, c, a, d, e, f, d];
    ClosedRunsOfClosing(runs);
  }

  /** A closed polygon of two points is split off but draws no mesh. */
  lemma DegeneratePolygonDrawsNothing(p: Vec, q: Vec, color: Color)
    requires p != q
    ensures ClosedRuns([p, q, p]) == [[p, q]]
    ensures CrosswalkMeshes([p, q, p], color) == []
  {
    var runs := [[p, q]];
    assert Closing(runs) == [p, q, p];
    ClosedRunsOfClosing(runs);
  }
}
