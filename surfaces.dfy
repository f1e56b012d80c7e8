/** The polyhedral surfaces every dialect builds from a footprint: triangulated top and bottom
  * faces and wall strips between a lower and an upper copy of each ring. The three dialects
  * share these definitions and differ in how they parse coordinates and when they fail. */
module Surfaces {
  import opened Wrappers
  import opened Numbers
  import opened Lists

  /** A parsed position `[x, y, z]`, or an Earth-centred point after conversion. */
  datatype Vec3 = Vec3(x: real, y: real, z: real)

  /** A ring of parsed positions. */
  type Ring = seq<Vec3>

  /** One face of a POLYHEDRALSURFACE Z: a triangle written as a ring of four vertices. */
  type Face = seq<Vec3>

  /** `convertToCartesian`: degrees and height to Earth-centred coordinates (trigonometry is
    * not modelled). */
  type ToEcef = Vec3 -> Vec3

  /** `earcut(vertices, holeIndices, 3)`: triangle corner indices into the vertex list. */
  type Earcut = (seq<Vec3>, seq<nat>) -> seq<nat>

  /** A triangle closed by repeating its first vertex. */
  predicate Closed(f: Face)
  {
    |f| == 4 && f[3] == f[0]
  }

  /** Earcut's output is usable: whole triples, each index naming a vertex. */
  predicate ValidIndices(indices: seq<nat>, n: nat)
  {
    |indices| % 3 == 0 && forall k :: 0 <= k < |indices| ==> indices[k] < n
  }

  /** The start of every hole in the flattened vertex list: the running totals of the ring
    * lengths, one per ring after the outer one. */
  function HoleStarts(rings: seq<Ring>): (hs: seq<nat>)
    ensures |hs| == if |rings| == 0 then 0 else |rings| - 1
  {
    if |rings| == 0 then []
    else seq(|rings| - 1, i requires 0 <= i < |rings| - 1 => |Flatten(rings[..i + 1])|)
  }

  function TriangleFace(toEcef: ToEcef, vs: seq<Vec3>, indices: seq<nat>, t: nat, reverse: bool): Face
    requires 3 * t + 2 < |indices|
    requires indices[3 * t] < |vs| && indices[3 * t + 1] < |vs| && indices[3 * t + 2] < |vs|
  {
    var a := toEcef(vs[indices[3 * t]]);
    var b := toEcef(vs[indices[3 * t + 1]]);
    var c := toEcef(vs[indices[3 * t + 2]]);
    if reverse then [a, c, b, a] else [a, b, c, a]
  }

  /** The faces `triangulate` builds from earcut's indices over the flattened vertices; None
    * when a triple is incomplete or names a missing vertex, which fails in every dialect. */
  function Triangles(toEcef: ToEcef, vs: seq<Vec3>, indices: seq<nat>, reverse: bool): (r: Option<seq<Face>>)
    ensures r.Some? <==> ValidIndices(indices, |vs|)
    ensures r.Some? ==> 3 * |r.value| == |indices|
    ensures r.Some? ==> forall t :: 0 <= t < |r.value| ==> Closed(r.value[t])
  {
    if ValidIndices(indices, |vs|) then
      Some(seq(|indices| / 3, t requires 0 <= t < |indices| / 3 => TriangleFace(toEcef, vs, indices, t, reverse)))
    else None
  }

  /** The bottom copy is the top one turned over: each face has its second and third vertex
    * swapped, so its normal points the other way. */
  lemma TrianglesReverse(toEcef: ToEcef, vs: seq<Vec3>, indices: seq<nat>)
    requires ValidIndices(indices, |vs|)
    ensures var up := Triangles(toEcef, vs, indices, false).value;
      var down := Triangles(toEcef, vs, indices, true).value;
      |up| == |down| &&
      forall t :: 0 <= t < |up| ==> down[t] == [up[t][0], up[t][2], up[t][1], up[t][0]]
  {
  }

  /** Each face joins the three vertices named by one triple of indices, in order. */
  lemma TrianglesCorners(toEcef: ToEcef, vs: seq<Vec3>, indices: seq<nat>, t: nat)
    requires ValidIndices(indices, |vs|) && t < |indices| / 3
    ensures 3 * t + 2 < |indices|
    ensures Triangles(toEcef, vs, indices, false).value[t]
         == [toEcef(vs[indices[3 * t]]), toEcef(vs[indices[3 * t + 1]]), toEcef(vs[indices[3 * t + 2]]), toEcef(vs[indices[3 * t]])]
  {
  }

  /** Number of wall faces for a ring of `n` positions: two per consecutive pair. */
  function WallCount(n: nat): nat
  {
    if n == 0 then 0 else 2 * (n - 1)
  }

  function WallFace(toEcef: ToEcef, lower: Ring, upper: Ring, k: nat): Face
    requires k / 2 + 1 < |lower| && k / 2 + 1 < |upper|
  {
    var i := k / 2;
    var bl := toEcef(lower[i]);
    var br := toEcef(lower[i + 1]);
    var tl := toEcef(upper[i]);
    var tr := toEcef(upper[i + 1]);
    if k % 2 == 0 then [bl, tl, br, bl] else [br, tl, tr, br]
  }

  /** `planeToWall(lower, upper)`: two faces per consecutive pair of positions, None when the
    * upper ring runs out before the lower one. */
  function WallFaces(toEcef: ToEcef, lower: Ring, upper: Ring): (r: Option<seq<Face>>)
    ensures r.Some? <==> |lower| < 2 || |upper| >= |lower|
    ensures r.Some? ==> |r.value| == WallCount(|lower|)
    ensures r.Some? ==> forall k :: 0 <= k < |r.value| ==> Closed(r.value[k])
  {
    if |lower| < 2 then Some([])
    else if |upper| < |lower| then None
    else Some(seq(2 * (|lower| - 1), k requires 0 <= k < 2 * (|lower| - 1) => WallFace(toEcef, lower, upper, k)))
  }

  /** The wall faces form a strip: each face shares an edge, two vertices, with the next one. */
  lemma WallsFormStrip(toEcef: ToEcef, lower: Ring, upper: Ring, k: nat)
    requires WallFaces(toEcef, lower, upper).Some?
    requires k + 1 < |WallFaces(toEcef, lower, upper).value|
    ensures var w := WallFaces(toEcef, lower, upper).value;
      w[k + 1][0] in w[k][..3] && w[k + 1][1] in w[k][..3]
  {
    var w := WallFaces(toEcef, lower, upper).value;
    var i := k / 2;
    if k % 2 == 0 {
      assert w[k][..3] == [toEcef(lower[i]), toEcef(upper[i]), toEcef(lower[i + 1])];
      assert w[k + 1][0] == toEcef(lower[i + 1]) && w[k + 1][1] == toEcef(upper[i]);
    } else {
      assert (k + 1) / 2 == i + 1;
      assert w[k][..3] == [toEcef(lower[i + 1]), toEcef(upper[i]), toEcef(upper[i + 1])];
      assert w[k + 1][0] == toEcef(lower[i + 1]) && w[k + 1][1] == toEcef(upper[i + 1]);
    }
  }

  /** With no height between the two copies, every wall face is degenerate: one of its
    * vertices repeats. */
  lemma FlatWallsDegenerate(toEcef: ToEcef, ring: Ring, k: nat)
    requires k < |WallFaces(toEcef, ring, ring).value|
    ensures var f := WallFaces(toEcef, ring, ring).value[k]; f[0] == f[1] || f[0] == f[2]
  {
  }

  /** The wall faces of every ring, ring after ring, pairing lower ring `i` with upper ring `i`;
    * a missing upper ring counts as empty. */
  function RingWalls(toEcef: ToEcef, lower: seq<Ring>, upper: seq<Ring>): (r: Option<seq<Face>>)
    ensures r.Some? ==> forall k :: 0 <= k < |r.value| ==> Closed(r.value[k])
  {
    if |lower| == 0 then Some([])
    else
      var n := |lower| - 1;
      var init := RingWalls(toEcef, lower[..n], upper);
      var last := WallFaces(toEcef, lower[n], if n < |upper| then upper[n] else []);
      if init.Some? && last.Some? then Some(init.value + last.value) else None
  }

  /** The walls of a ring list exist exactly when every ring's walls do. */
  lemma {:induction false} RingWallsSome(toEcef: ToEcef, lower: seq<Ring>, upper: seq<Ring>)
    ensures RingWalls(toEcef, lower, upper).Some?
        <==> forall i :: 0 <= i < |lower| ==> WallFaces(toEcef, lower[i], if i < |upper| then upper[i] else []).Some?
  {
    if |lower| > 0 {
      var n := |lower| - 1;
      RingWallsSome(toEcef, lower[..n], upper);
      assert forall i :: 0 <= i < n ==> lower[..n][i] == lower[i];
    }
  }

  /** Total wall faces over a list of rings. */
  function WallTotal(rings: seq<Ring>): nat
  {
    if |rings| == 0 then 0 else WallTotal(rings[..|rings| - 1]) + WallCount(|rings[|rings| - 1]|)
  }

  /** Two copies of the same footprint (same ring lengths) always get their walls, two faces per
    * edge of every ring. */
  lemma {:induction false} RingWallsOfSameShape(toEcef: ToEcef, lower: seq<Ring>, upper: seq<Ring>)
    requires |lower| <= |upper|
    requires forall i :: 0 <= i < |lower| ==> |lower[i]| == |upper[i]|
    ensures RingWalls(toEcef, lower, upper).Some?
    ensures |RingWalls(toEcef, lower, upper).value| == WallTotal(lower)
  {
    if |lower| > 0 {
      var n := |lower| - 1;
      RingWallsOfSameShape(toEcef, lower[..n], upper);
      assert lower[..n][..|lower[..n]|] == lower[..n];
    }
  }

  /** The mean height of a ring, `sum / length` in floating point: NaN for an empty ring. */
  function MeanZ(ring: Ring): Number
  {
    Div(Finite(Sum(seq(|ring|, i requires 0 <= i < |ring| => ring[i].z))), Finite(|ring| as real))
  }

  /** A ring at one height has that height as its mean. */
  lemma {:induction false} SumOfConstant(zs: seq<real>, c: real)
    requires forall i :: 0 <= i < |zs| ==> zs[i] == c
    ensures Sum(zs) == |zs| as real * c
  {
    if |zs| > 0 {
      SumOfConstant(zs[..|zs| - 1], c);
    }
  }

  lemma MeanOfLevelRing(ring: Ring, c: real)
    requires |ring| > 0
    requires forall i :: 0 <= i < |ring| ==> ring[i].z == c
    ensures MeanZ(ring) == Finite(c)
  {
    SumOfConstant(seq(|ring|, i requires 0 <= i < |ring| => ring[i].z), c);
  }

  /** The in-order concatenation of several partial surfaces (`flatMap` / `.map(...).flat()`),
    * failing as soon as one of them fails. */
  function ConcatSurfaces(parts: seq<Option<seq<Face>>>): (r: Option<seq<Face>>)
    ensures r.Some? <==> forall i :: 0 <= i < |parts| ==> parts[i].Some?
  {
    if |parts| == 0 then Some([])
    else
      var n := |parts| - 1;
      var init := ConcatSurfaces(parts[..n]);
      if init.Some? && parts[n].Some? then Some(init.value + parts[n].value) else None
  }

  /** When every part succeeds the result is the parts one after the other. */
  lemma {:induction false} ConcatSurfacesValue(parts: seq<Option<seq<Face>>>)
    requires forall i :: 0 <= i < |parts| ==> parts[i].Some?
    ensures ConcatSurfaces(parts).value
         == Flatten(seq(|parts|, i requires 0 <= i < |parts| => parts[i].value))
  {
    if |parts| > 0 {
      var n := |parts| - 1;
      ConcatSurfacesValue(parts[..n]);
      var vs := seq(|parts|, i requires 0 <= i < |parts| => parts[i].value);
      assert vs == vs[..n] + [parts[n].value];
      assert vs[..n] == seq(n, i requires 0 <= i < n => parts[..n][i].value);
      FlattenSnoc(vs[..n], parts[n].value);
    }
  }

  /** `xs.flatMap(f)` where any call may throw (None). */
  function ConcatMap<T>(f: T -> Option<seq<Face>>, xs: seq<T>): Option<seq<Face>>
  {
    ConcatSurfaces(seq(|xs|, i requires 0 <= i < |xs| => f(xs[i])))
  }

  lemma ConcatMapValue<T>(f: T -> Option<seq<Face>>, xs: seq<T>)
    ensures ConcatMap(f, xs).Some? <==> forall i :: 0 <= i < |xs| ==> f(xs[i]).Some?
    ensures ConcatMap(f, xs).Some? ==>
      ConcatMap(f, xs).value == Flatten(seq(|xs|, i requires 0 <= i < |xs| => f(xs[i]).value))
  {
    var parts := seq(|xs|, i requires 0 <= i < |xs| => f(xs[i]));
    assert forall i :: 0 <= i < |xs| ==> parts[i] == f(xs[i]);
    if ConcatMap(f, xs).Some? {
      assert forall i :: 0 <= i < |xs| ==> f(xs[i]).Some?;
      ConcatSurfacesValue(parts);
      assert seq(|parts|, i requires 0 <= i < |parts| => parts[i].value)
          == seq(|xs|, i requires 0 <= i < |xs| => f(xs[i]).value);
    }
  }
}
