/** The persistent road-marking pass: each stencil of the map becomes a rectangle of two
    triangles, centred on the stencil and turned by its orientation. */
module Stencils {
  import opened Wrappers
  import opened Geometry
  import opened Crosswalks

  /** A map stencil: its transform's location and rotation, and its width and length in metres. */
  datatype Stencil = Stencil(location: Vec, rotation: Quat, width: real, length: real)

  /** The two triangles of a stencil quad. */
  const StencilIndices: seq<int> := [0, 1, 2, 0, 2, 3]

  /** The four local corner offsets, in engine units, in drawing order. */
  function StencilOffsets(st: Stencil): (o: seq<Vec>)
    ensures |o| == 4
  {
    var w := st.width * MetresToCentimetres;
    var l := st.length * MetresToCentimetres;
    [Vec(-l / 2.0, -w / 2.0, 0.0), Vec(l / 2.0, -w / 2.0, 0.0), Vec(l / 2.0, w / 2.0, 0.0), Vec(-l / 2.0, w / 2.0, 0.0)]
  }

  /** The mesh drawn for one stencil. */
  function StencilMesh(st: Stencil, color: Color): Primitive
  {
    var o := StencilOffsets(st);
    Mesh([Rotated(st.location, st.rotation, o[0]), Rotated(st.location, st.rotation, o[1]),
          Rotated(st.location, st.rotation, o[2]), Rotated(st.location, st.rotation, o[3])],
         StencilIndices, color, SdpgWorld)
  }

  /** The meshes drawn for the map's stencils in order; missing stencils are skipped. */
  function StencilMeshes(stencils: seq<Option<Stencil>>, color: Color): (ms: seq<Primitive>)
    ensures |ms| <= |stencils|
  {
    if |stencils| == 0 then []
    else
      var last := stencils[|stencils| - 1];
      StencilMeshes(stencils[..|stencils| - 1], color) + (if last.Some? then [StencilMesh(last.value, color)] else [])
  }

  /** A stencil is drawn as the four-point triangle fan the crosswalks use, over a flat
      rectangle centred on the stencil, `length` metres along its x axis and `width` along y. */
  lemma StencilIsCentredRectangle(st: Stencil, color: Color)
    ensures var m := StencilMesh(st, color);
      var o := StencilOffsets(st);
      m.indices == FanIndices(4) && |m.vertices| == 4 &&
      (forall i :: 0 <= i < 4 ==> m.vertices[i] == Rotated(st.location, st.rotation, o[i]) && o[i].z == 0.0) &&
      Add(o[0], o[2]) == Vec(0.0, 0.0, 0.0) && Add(o[1], o[3]) == Vec(0.0, 0.0, 0.0) &&
      Sub(o[1], o[0]) == Vec(st.length * 100.0, 0.0, 0.0) && Sub(o[3], o[0]) == Vec(0.0, st.width * 100.0, 0.0)
  {
    assert FanIndices(2) == [];
    assert FanIndices(3) == [0, 1, 2];
  }

  /** One mesh per present stencil, each the stencil's own quad in the given colour. */
  lemma {:induction false} StencilMeshesAreQuads(stencils: seq<Option<Stencil>>, color: Color, m: Primitive)
    requires m in StencilMeshes(stencils, color)
    ensures exists k :: 0 <= k < |stencils| && stencils[k].Some? && m == StencilMesh(stencils[k].value, color)
  {
    var n := |stencils|;
    var prefix := stencils[..n - 1];
    if m in StencilMeshes(prefix, color) {
      StencilMeshesAreQuads(prefix, color, m);
      var k :| 0 <= k < |prefix| && prefix[k].Some? && m == StencilMesh(prefix[k].value, color);
      assert stencils[k] == prefix[k];
    } else {
      assert stencils[n - 1].Some? && m == StencilMesh(stencils[n - 1].value, color);
    }
  }

  /** The present indices below `m` are those below `m - 1`, plus `m - 1` when that
      stencil is present. */
  lemma PresentBelow(stencils: seq<Option<Stencil>>, m: nat)
    requires 0 < m <= |stencils|
    ensures |set k | 0 <= k < m && stencils[k].Some?| ==
      |set k | 0 <= k < m - 1 && stencils[k].Some?| + if stencils[m - 1].Some? then 1 else 0
  {
    var before := set k | 0 <= k < m - 1 && stencils[k].Some?;
    var after := set k | 0 <= k < m && stencils[k].Some?;
    if stencils[m - 1].Some? {
      assert after == before + {m - 1};
    } else {
      assert after == before;
    }
  }

  /** The meshes of the first `m` stencils are as many as the present ones among them. */
  lemma {:induction false} StencilMeshCountUpTo(stencils: seq<Option<Stencil>>, color: Color, m: nat)
    requires m <= |stencils|
    ensures |StencilMeshes(stencils[..m], color)| == |set k | 0 <= k < m && stencils[k].Some?|
    decreases m
  {
    if m > 0 {
      StencilMeshCountUpTo(stencils, color, m - 1);
      assert stencils[..m][..m - 1] == stencils[..m - 1];
      PresentBelow(stencils, m);
    }
  }

  /** Missing stencils draw nothing, and every present one draws exactly one mesh. */
  lemma StencilMeshCount(stencils: seq<Option<Stencil>>, color: Color)
    ensures |StencilMeshes(stencils, color)| == |set k | 0 <= k < |stencils| && stencils[k].Some?|
  {
    StencilMeshCountUpTo(stencils, color, |stencils|);
    assert stencils[..|stencils|] == stencils;
  }
}
