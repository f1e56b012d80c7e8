/** The quadtree of tiles that the two Python tileset builders (the mesh one and the
  * photogrammetry one) write as the `root` of a 3D Tiles 1.1 tileset: every node carries a
  * geometric error taken from a per-level schedule, `refine: 'REPLACE'`, a bounding volume and
  * the content uri `{level}_{y}_{x}.glb`; a node above the requested depth gets the four
  * quadrants of its box as children. The root, given a transform, is wrapped in an outer node
  * that holds the transform. Also the 4x4 matrix helpers both builders use. */
module Tiles {
  import opened Wrappers
  import opened Numbers
  import opened Text
  import opened PyValues

  // ---------------------------------------------------------------------------
  // 4x4 matrices, flattened row by row

  type Matrix4 = m: seq<real> | |m| == 16 witness seq(16, i => 0.0)

  /** The entry at row `r`, column `c`. */
  function At(m: Matrix4, r: nat, c: nat): real
    requires r < 4 && c < 4
  {
    m[4 * r + c]
  }

  /** `convert_to_column_major_order`: `np.array(m).reshape(4, 4).T.flatten()`. */
  function Transpose(m: Matrix4): Matrix4
  {
    [m[0], m[4], m[8], m[12],
     m[1], m[5], m[9], m[13],
     m[2], m[6], m[10], m[14],
     m[3], m[7], m[11], m[15]]
  }

  /** Row `r`, column `c` of the transpose is row `c`, column `r` of the matrix. */
  lemma TransposeEntries(m: Matrix4)
    ensures forall r: nat, c: nat :: r < 4 && c < 4 ==> At(Transpose(m), r, c) == At(m, c, r)
  {
    var t := Transpose(m);
    forall r: nat, c: nat | r < 4 && c < 4
      ensures At(t, r, c) == At(m, c, r)
    {
      if r == 0 {
        assert t[0] == m[0] && t[1] == m[4] && t[2] == m[8] && t[3] == m[12];
      } else if r == 1 {
        assert t[4] == m[1] && t[5] == m[5] && t[6] == m[9] && t[7] == m[13];
      } else if r == 2 {
        assert t[8] == m[2] && t[9] == m[6] && t[10] == m[10] && t[11] == m[14];
      } else {
        assert t[12] == m[3] && t[13] == m[7] && t[14] == m[11] && t[15] == m[15];
      }
    }
  }

  /** Transposing twice gives the matrix back. */
  lemma TransposeInvolution(m: Matrix4)
    ensures Transpose(Transpose(m)) == m
  {
  }

  /** Row `r` of `a` times column `c` of `b`. */
  function Dot(a: Matrix4, b: Matrix4, r: nat, c: nat): real
    requires r < 4 && c < 4
  {
    At(a, r, 0) * At(b, 0, c) + At(a, r, 1) * At(b, 1, c) + At(a, r, 2) * At(b, 2, c) + At(a, r, 3) * At(b, 3, c)
  }

  /** `multiply_matrix(m1, m2)`: the matrix product, flattened row by row. */
  function MatMul(a: Matrix4, b: Matrix4): Matrix4
  {
    [Dot(a, b, 0, 0), Dot(a, b, 0, 1), Dot(a, b, 0, 2), Dot(a, b, 0, 3),
     Dot(a, b, 1, 0), Dot(a, b, 1, 1), Dot(a, b, 1, 2), Dot(a, b, 1, 3),
     Dot(a, b, 2, 0), Dot(a, b, 2, 1), Dot(a, b, 2, 2), Dot(a, b, 2, 3),
     Dot(a, b, 3, 0), Dot(a, b, 3, 1), Dot(a, b, 3, 2), Dot(a, b, 3, 3)]
  }

  /** The scale matrix `diag(s, s, s, 1)`; with `s = 1` it is the identity `rot` matrix. */
  function ScaleMatrix(s: real): Matrix4
  {
    [s, 0.0, 0.0, 0.0,
     0.0, s, 0.0, 0.0,
     0.0, 0.0, s, 0.0,
     0.0, 0.0, 0.0, 1.0]
  }

  /** Multiplying by the identity rotation changes nothing. */
  lemma RotationIsNeutral(m: Matrix4)
    ensures MatMul(m, ScaleMatrix(1.0)) == m
  {
  }

  /** Multiplying by the scale matrix scales the first three columns and keeps the last. */
  lemma ScaleColumns(m: Matrix4, s: real)
    ensures MatMul(m, ScaleMatrix(s)) ==
      [m[0] * s, m[1] * s, m[2] * s, m[3],
       m[4] * s, m[5] * s, m[6] * s, m[7],
       m[8] * s, m[9] * s, m[10] * s, m[11],
       m[12] * s, m[13] * s, m[14] * s, m[15]]
  {
    var p := MatMul(m, ScaleMatrix(s));
    ScaleDots(m, s, 0);
    ScaleDots(m, s, 1);
    ScaleDots(m, s, 2);
    ScaleDots(m, s, 3);
    assert p[0] == m[0] * s && p[1] == m[1] * s && p[2] == m[2] * s && p[3] == m[3];
    assert p[4] == m[4] * s && p[5] == m[5] * s && p[6] == m[6] * s && p[7] == m[7];
    assert p[8] == m[8] * s && p[9] == m[9] * s && p[10] == m[10] * s && p[11] == m[11];
    assert p[12] == m[12] * s && p[13] == m[13] * s && p[14] == m[14] * s && p[15] == m[15];
  }

  lemma ScaleDots(m: Matrix4, s: real, r: nat)
    requires r < 4
    ensures Dot(m, ScaleMatrix(s), r, 0) == At(m, r, 0) * s
    ensures Dot(m, ScaleMatrix(s), r, 1) == At(m, r, 1) * s
    ensures Dot(m, ScaleMatrix(s), r, 2) == At(m, r, 2) * s
    ensures Dot(m, ScaleMatrix(s), r, 3) == At(m, r, 3)
  {
  }

  /** What `to_ecef_transform` / `get_transform` compute with `math.sin`, `math.cos` and
    * `math.sqrt` from the latitude, longitude, altitude and scale: the sines and cosines of
    * the latitude and longitude and the ECEF position of the origin. */
  datatype Geodetic = Geodetic(sinLat: real, cosLat: real, sinLon: real, cosLon: real, x: real, y: real, z: real)

  /** `res`: the east, north and up axes in the first three columns, the origin in the last. */
  function EnuFrame(g: Geodetic): Matrix4
  {
    [-g.sinLon, -g.cosLon * g.sinLat, g.cosLat * g.cosLon, g.x,
     g.cosLon, -g.sinLon * g.sinLat, g.cosLat * g.sinLon, g.y,
     0.0, g.cosLat, g.sinLat, g.z,
     0.0, 0.0, 0.0, 1.0]
  }

  /** The last step of `to_ecef_transform` / `get_transform`: the frame times the identity
    * rotation, transposed to column-major order, times the scale matrix. */
  function EcefTransform(g: Geodetic, s: real): Matrix4
  {
    MatMul(Transpose(MatMul(EnuFrame(g), ScaleMatrix(1.0))), ScaleMatrix(s))
  }

  /** `res` in column-major order: the axes of the frame become rows, its origin the last. */
  lemma TransposedFrame(g: Geodetic)
    ensures Transpose(EnuFrame(g)) ==
      [-g.sinLon, g.cosLon, 0.0, 0.0,
       -g.cosLon * g.sinLat, -g.sinLon * g.sinLat, g.cosLat, 0.0,
       g.cosLat * g.cosLon, g.cosLat * g.sinLon, g.sinLat, 0.0,
       g.x, g.y, g.z, 1.0]
  {
    var t := Transpose(EnuFrame(g));
    assert t[0] == -g.sinLon && t[1] == g.cosLon && t[2] == 0.0 && t[3] == 0.0;
    assert t[4] == -g.cosLon * g.sinLat && t[5] == -g.sinLon * g.sinLat && t[6] == g.cosLat && t[7] == 0.0;
    assert t[8] == g.cosLat * g.cosLon && t[9] == g.cosLat * g.sinLon && t[10] == g.sinLat && t[11] == 0.0;
    assert t[12] == g.x && t[13] == g.y && t[14] == g.z && t[15] == 1.0;
  }

  /** The transform in the column-major layout of a tileset: the east, north and up axes of
    * the frame become its first three rows, each followed by a 0, and the origin fills the
    * last row; everything but the final 1 is multiplied by the scale. */
  lemma EcefTransformLayout(g: Geodetic, s: real)
    ensures var e := EcefTransform(g, s);
      e[0] == -g.sinLon * s && e[1] == g.cosLon * s && e[2] == 0.0 && e[3] == 0.0 &&
      e[4] == -g.cosLon * g.sinLat * s && e[5] == -g.sinLon * g.sinLat * s && e[6] == g.cosLat * s && e[7] == 0.0 &&
      e[8] == g.cosLat * g.cosLon * s && e[9] == g.cosLat * g.sinLon * s && e[10] == g.sinLat * s && e[11] == 0.0 &&
      e[12] == g.x * s && e[13] == g.y * s && e[14] == g.z * s && e[15] == 1.0
  {
    var frame := EnuFrame(g);
    RotationIsNeutral(frame);
    TransposedFrame(g);
    ScaleColumns(Transpose(frame), s);
  }

  /** With the unit scale the transform is the frame transposed. */
  lemma UnitEcefTransformIsTranspose(g: Geodetic)
    ensures EcefTransform(g, 1.0) == Transpose(EnuFrame(g))
  {
    var frame := EnuFrame(g);
    RotationIsNeutral(frame);
    RotationIsNeutral(Transpose(frame));
  }

  // ---------------------------------------------------------------------------
  // Tiles

  /** A `boundingVolume`: a `region` (radians and heights), a `box`, or both. */
  datatype Volume = Volume(region: Option<seq<real>>, box: Option<seq<real>>)

  /** A tile: absent members are written as `None`. */
  datatype Tile = Tile(geometricError: real, refine: string, boundingVolume: Option<Volume>,
                       content: Option<string>, transform: Option<Matrix4>, children: Children)

  /** A tile's `children` member: a leaf has none. */
  datatype Children = Absent | Present(tiles: seq<Tile>)

  /** The tileset document: `asset.version` and the root tile. */
  datatype Tileset = Tileset(version: string, root: Tile)

  /** `[minx, miny, maxx, maxy]` */
  datatype BBox = BBox(minX: real, minY: real, maxX: real, maxY: real)

  /** The `params` dict `quad` is called with. */
  datatype QuadParams = QuadParams(bbox: BBox, x: int, y: int, level: nat, uri: string)

  /** What differs between the two builders: the geometric-error schedule, the depth, the
    * extent, which child quadrants get attached (the mesh builder checks that the tile file
    * exists, the photogrammetry one attaches all four), and the bounding volumes. */
  datatype Builder = Builder(
    errors: seq<real>,
    depth: int,
    width: real,
    height: real,
    attached: string -> bool,
    volume: QuadParams -> Volume,
    rootVolume: BBox -> Volume)

  /** `f'{level}_{y}_{x}.glb'` */
  function TileUri(level: nat, y: int, x: int): (u: string)
    ensures |u| > 4 && u[|u| - 4..] == ".glb"
  {
    NatToString(level) + "_" + IntToString(y) + "_" + IntToString(x) + ".glb"
  }

  /** The quadrant at column `x`, row `y` of `level`, with its uri. */
  function Quadrant(bbox: BBox, x: int, y: int, level: nat): (q: QuadParams)
    ensures q.level == level && q.uri != ""
  {
    QuadParams(bbox, x, y, level, TileUri(level, y, x))
  }

  /** The width (or height) of a tile at `level`, `extent / 2**level`: the extent halved
    * `level` times. */
  function LevelExtent(extent: real, level: nat): (r: real)
    ensures (r == 0.0) <==> (extent == 0.0)
  {
    if level == 0 then extent else LevelExtent(extent, level - 1) / 2.0
  }

  /** `i * unit / next_unit` */
  function IndexRatio(i: int, unit: real, next: real): real
    requires next != 0.0
  {
    i as real * unit / next
  }

  /** A child's column (or row): `round(i * unit / next_unit)`. */
  function ChildIndex(i: int, extent: real, level: nat): int
    requires LevelExtent(extent, level + 1) != 0.0
  {
    RoundHalfEven(IndexRatio(i, LevelExtent(extent, level), LevelExtent(extent, level + 1)))
  }

  /** The four child quadrants of a node, upper-left, upper-right, lower-left, lower-right;
    * ZeroDivisionError when the width or the height is 0, since the child index divides by
    * the child's extent. */
  function ChildQuads(b: Builder, p: QuadParams): (r: Result<seq<QuadParams>>)
    ensures r.Ok? <==> b.width != 0.0 && b.height != 0.0
    ensures r.Err? ==> r.error == ZeroDivisionError
    ensures r.Ok? ==> |r.value| == 4 && forall q :: q in r.value ==> q.level == p.level + 1 && q.uri != ""
  {
    var l := p.level + 1;
    var nextW := LevelExtent(b.width, l);
    var nextH := LevelExtent(b.height, l);
    if nextW == 0.0 || nextH == 0.0 then Err(ZeroDivisionError)
    else
      var x0 := ChildIndex(p.x, b.width, p.level);
      var y0 := ChildIndex(p.y, b.height, p.level);
      var cx := p.bbox.minX + nextW;
      var cy := p.bbox.minY + nextH;
      Ok([Quadrant(BBox(p.bbox.minX, cy, cx, p.bbox.maxY), x0, y0, l),
          Quadrant(BBox(cx, cy, p.bbox.maxX, p.bbox.maxY), x0 + 1, y0, l),
          Quadrant(BBox(p.bbox.minX, p.bbox.minY, cx, cy), x0, y0 + 1, l),
          Quadrant(BBox(cx, p.bbox.minY, p.bbox.maxX, cy), x0 + 1, y0 + 1, l)])
  }

  /** `i * unit / (unit / 2)` is `2i`. */
  lemma RatioOfHalves(i: int, u: real, v: real)
    requires v != 0.0 && u == 2.0 * v
    ensures IndexRatio(i, u, v) == (2 * i) as real
  {
    calc {
      i as real * u / v;
      i as real * (2.0 * v) / v;
      (2.0 * i as real) * v / v;
      (2 * i) as real;
    }
  }

  /** The children of column `i` are columns `2i` and `2i + 1` (and likewise for rows). */
  lemma ChildIndexDoubles(i: int, extent: real, level: nat)
    requires extent != 0.0
    ensures LevelExtent(extent, level + 1) != 0.0
    ensures ChildIndex(i, extent, level) == 2 * i
  {
    var u := LevelExtent(extent, level);
    var v := LevelExtent(extent, level + 1);
    assert u == 2.0 * v;
    RatioOfHalves(i, u, v);
    assert ((2 * i) as real).Floor == 2 * i;
  }

  /** The children's indices are `2x, 2x+1` and `2y, 2y+1`, their uris follow, and their boxes
    * split the parent's at `(minX + childWidth, minY + childHeight)`, the first row taking
    * the upper part. */
  lemma ChildQuadsSplit(b: Builder, p: QuadParams)
    requires b.width != 0.0 && b.height != 0.0
    ensures var l := p.level + 1;
      var cx := p.bbox.minX + LevelExtent(b.width, l);
      var cy := p.bbox.minY + LevelExtent(b.height, l);
      ChildQuads(b, p) == Ok([
        Quadrant(BBox(p.bbox.minX, cy, cx, p.bbox.maxY), 2 * p.x, 2 * p.y, l),
        Quadrant(BBox(cx, cy, p.bbox.maxX, p.bbox.maxY), 2 * p.x + 1, 2 * p.y, l),
        Quadrant(BBox(p.bbox.minX, p.bbox.minY, cx, cy), 2 * p.x, 2 * p.y + 1, l),
        Quadrant(BBox(cx, p.bbox.minY, p.bbox.maxX, cy), 2 * p.x + 1, 2 * p.y + 1, l)])
  {
    ChildIndexDoubles(p.x, b.width, p.level);
    ChildIndexDoubles(p.y, b.height, p.level);
  }

  /** The children are columns `2x, 2x + 1` and rows `2y, 2y + 1` one level down, upper-left,
    * upper-right, lower-left, lower-right. */
  lemma ChildPositions(b: Builder, p: QuadParams)
    requires b.width != 0.0 && b.height != 0.0
    ensures ChildQuads(b, p).Ok? && |ChildQuads(b, p).value| == 4
    ensures var qs := ChildQuads(b, p).value;
      qs[0].x == 2 * p.x && qs[0].y == 2 * p.y && qs[1].x == 2 * p.x + 1 && qs[1].y == 2 * p.y &&
      qs[2].x == 2 * p.x && qs[2].y == 2 * p.y + 1 && qs[3].x == 2 * p.x + 1 && qs[3].y == 2 * p.y + 1 &&
      qs[0].level == qs[1].level == qs[2].level == qs[3].level == p.level + 1
  {
    ChildQuadsSplit(b, p);
  }

  /** The quadrants whose tile `check_uri` finds, in order. */
  function Attached(b: Builder, quads: seq<QuadParams>): (r: seq<QuadParams>)
    ensures forall q :: q in r ==> q in quads && b.attached(q.uri)
  {
    if |quads| == 0 then []
    else
      var n := |quads| - 1;
      Attached(b, quads[..n]) + (if b.attached(quads[n].uri) then [quads[n]] else [])
  }

  /** Every quadrant whose tile is found is attached. */
  lemma {:induction false} AttachedKeepsFound(b: Builder, quads: seq<QuadParams>, q: QuadParams)
    requires q in quads && b.attached(q.uri)
    ensures q in Attached(b, quads)
  {
    var n := |quads| - 1;
    if q != quads[n] {
      assert q in quads[..n];
      AttachedKeepsFound(b, quads[..n], q);
    }
  }

  lemma {:induction false} AttachedAppend(b: Builder, xs: seq<QuadParams>, ys: seq<QuadParams>)
    ensures Attached(b, xs + ys) == Attached(b, xs) + Attached(b, ys)
  {
    if |ys| > 0 {
      var n := |ys| - 1;
      assert (xs + ys)[..|xs + ys| - 1] == xs + ys[..n];
      AttachedAppend(b, xs, ys[..n]);
    } else {
      assert xs + ys == xs;
    }
  }

  /** The children computed one after the other: the first failure is raised. */
  function CollectResults(rs: seq<Result<Tile>>): Result<seq<Tile>>
  {
    if |rs| == 0 then Ok([])
    else
      var n := |rs| - 1;
      var init := CollectResults(rs[..n]);
      if init.Err? then Err(init.error)
      else if rs[n].Err? then Err(rs[n].error)
      else Ok(init.value + [rs[n].value])
  }

  /** The children are built exactly when every one of them is, and then they are the built
    * tiles in order. */
  lemma {:induction false} CollectResultsOk(rs: seq<Result<Tile>>)
    ensures CollectResults(rs).Ok? <==> forall i :: 0 <= i < |rs| ==> rs[i].Ok?
    ensures CollectResults(rs).Ok? ==>
      |CollectResults(rs).value| == |rs| && forall i :: 0 <= i < |rs| ==> CollectResults(rs).value[i] == rs[i].value
  {
    if |rs| > 0 {
      var n := |rs| - 1;
      CollectResultsOk(rs[..n]);
    }
  }

  /** Once a failure is raised, later children do not matter. */
  lemma {:induction false} CollectResultsKeepsError(xs: seq<Result<Tile>>, ys: seq<Result<Tile>>)
    requires CollectResults(xs).Err?
    ensures CollectResults(xs + ys) == CollectResults(xs)
  {
    if |ys| > 0 {
      var n := |ys| - 1;
      assert (xs + ys)[..|xs + ys| - 1] == xs + ys[..n];
      CollectResultsKeepsError(xs, ys[..n]);
    } else {
      assert xs + ys == xs;
    }
  }

  /** The `leaf` dict: the error one level down the schedule, `REPLACE`, the bounding volume
    * and, for a non-empty uri, the content. */
  function Leaf(b: Builder, p: QuadParams): Tile
    requires p.level + 1 < |b.errors|
  {
    Tile(b.errors[p.level + 1], "REPLACE", Some(b.volume(p)), if p.uri != "" then Some(p.uri) else None, None, Absent)
  }

  function Rank(b: Builder, level: nat): nat
  {
    if level < b.depth then b.depth - level else 0
  }

  /** The tiles built for the given quadrants. */
  function ChildTiles(b: Builder, kept: seq<QuadParams>, level: nat): (rs: seq<Result<Tile>>)
    requires 0 < level <= b.depth
    requires forall q :: q in kept ==> q.level == level
    decreases Rank(b, level - 1), 0
    ensures |rs| == |kept|
  {
    seq(|kept|, i requires 0 <= i < |kept| => QuadSpec(b, kept[i], None))
  }

  /** The `children` list of a node above the depth: its attached quadrants built one after
    * the other, the first failure raised. */
  function ChildrenOf(b: Builder, p: QuadParams): Result<seq<Tile>>
    requires p.level < b.depth
    decreases Rank(b, p.level), 1
  {
    var quads := ChildQuads(b, p);
    if quads.Err? then Err(quads.error)
    else CollectResults(ChildTiles(b, Attached(b, quads.value), p.level + 1))
  }

  lemma ChildTilesAppend(b: Builder, xs: seq<QuadParams>, ys: seq<QuadParams>, level: nat)
    requires 0 < level <= b.depth
    requires forall q :: q in xs + ys ==> q.level == level
    ensures ChildTiles(b, xs + ys, level) == ChildTiles(b, xs, level) + ChildTiles(b, ys, level)
  {
  }

  /** `quad(params)`: the node, its attached children built recursively (the first failure
    * raised), and, when a transform is given to a node with children, the outer node that
    * carries it with the schedule's entry for the node's own level. IndexError when the
    * schedule is too short for the node's level. */
  function QuadSpec(b: Builder, p: QuadParams, transform: Option<Matrix4>): Result<Tile>
    decreases Rank(b, p.level), 2
  {
    if p.level + 1 >= |b.errors| then Err(IndexError)
    else if p.level >= b.depth then Ok(Leaf(b, p))
    else
      var children := ChildrenOf(b, p);
      if children.Err? then Err(children.error)
      else Ok(Node(b, p, transform, children.value))
  }

  /** A node above the depth with its children, wrapped in the outer node when a transform is
    * given. */
  function Node(b: Builder, p: QuadParams, transform: Option<Matrix4>, children: seq<Tile>): Tile
    requires p.level + 1 < |b.errors|
  {
    var node := Leaf(b, p).(children := Present(children));
    if transform.Some? then
      Tile(b.errors[p.level], "REPLACE", Some(b.rootVolume(p.bbox)), None, transform, Present([node]))
    else node
  }

  lemma AttachedStep(b: Builder, qs: seq<QuadParams>, k: nat)
    requires k < |qs|
    ensures Attached(b, qs[..k + 1]) == Attached(b, qs[..k]) + (if b.attached(qs[k].uri) then [qs[k]] else [])
  {
    assert qs[..k + 1][..k] == qs[..k];
  }

  lemma CollectResultsAppendOk(xs: seq<Result<Tile>>, t: Tile)
    requires CollectResults(xs).Ok?
    ensures CollectResults(xs + [Ok(t)]) == Ok(CollectResults(xs).value + [t])
  {
    assert (xs + [Ok(t)])[..|xs|] == xs;
  }

  /** An attached quadrant that fails after the earlier ones succeeded makes its parent fail
    * with its error. */
  lemma FailingChildFails(b: Builder, qs: seq<QuadParams>, k: nat, level: nat)
    requires 0 < level <= b.depth && k < |qs|
    requires forall q :: q in qs ==> q.level == level
    requires CollectResults(ChildTiles(b, Attached(b, qs[..k]), level)).Ok?
    requires b.attached(qs[k].uri) && QuadSpec(b, qs[k], None).Err?
    ensures CollectResults(ChildTiles(b, Attached(b, qs), level)) == Err(QuadSpec(b, qs[k], None).error)
  {
    var a1, a2 := Attached(b, qs[..k + 1]), Attached(b, qs[k + 1..]);
    var e := QuadSpec(b, qs[k], None);
    FailingChildStep(b, qs, k, level);
    assert qs == qs[..k + 1] + qs[k + 1..];
    AttachedAppend(b, qs[..k + 1], qs[k + 1..]);
    ChildTilesAppend(b, a1, a2, level);
    CollectResultsKeepsError(ChildTiles(b, a1, level), ChildTiles(b, a2, level));
  }

  /** The failing child itself: the children up to it fail with its error. */
  lemma FailingChildStep(b: Builder, qs: seq<QuadParams>, k: nat, level: nat)
    requires 0 < level <= b.depth && k < |qs|
    requires forall q :: q in qs ==> q.level == level
    requires CollectResults(ChildTiles(b, Attached(b, qs[..k]), level)).Ok?
    requires b.attached(qs[k].uri) && QuadSpec(b, qs[k], None).Err?
    ensures CollectResults(ChildTiles(b, Attached(b, qs[..k + 1]), level)) == Err(QuadSpec(b, qs[k], None).error)
  {
    var a0 := Attached(b, qs[..k]);
    var e := QuadSpec(b, qs[k], None);
    AttachedStep(b, qs, k);
    ChildTilesAppend(b, a0, [qs[k]], level);
    assert ChildTiles(b, [qs[k]], level) == [e];
    CollectResultsFailsLast(ChildTiles(b, a0, level), e);
  }

  /** A failure after successes is the one raised. */
  lemma CollectResultsFailsLast(xs: seq<Result<Tile>>, e: Result<Tile>)
    requires CollectResults(xs).Ok? && e.Err?
    ensures CollectResults(xs + [e]) == Err(e.error)
  {
    assert (xs + [e])[..|xs|] == xs;
  }

  /** `quad(params)` as written: the leaf dict filled in step by step, then the children and
    * the outer node. */
  method Quad(b: Builder, p: QuadParams, transform: Option<Matrix4>) returns (r: Result<Tile>)
    decreases Rank(b, p.level), 1
    ensures r == QuadSpec(b, p, transform)
  {
    if p.level + 1 >= |b.errors| {
      return Err(IndexError);
    }
    var leaf := Tile(b.errors[p.level + 1], "REPLACE", None, None, None, Absent);
    leaf := leaf.(boundingVolume := Some(b.volume(p)));
    if p.uri != "" {
      leaf := leaf.(content := Some(p.uri));
    }
    assert leaf == Leaf(b, p);
    if p.level >= b.depth {
      return Ok(leaf);
    }
    var quads := ChildQuads(b, p);
    if quads.Err? {
      return Err(quads.error);
    }
    var children := BuildChildren(b, quads.value, p.level + 1);
    assert children == ChildrenOf(b, p);
    if children.Err? {
      return Err(children.error);
    }
    var node := leaf.(children := Present(children.value));
    if transform.Some? {
      node := Tile(b.errors[p.level], "REPLACE", Some(b.rootVolume(p.bbox)), None, transform, Present([node]));
    }
    assert node == Node(b, p, transform, children.value);
    return Ok(node);
  }

  /** The loop over the four quadrants: each one whose tile is found is built and appended,
    * the first failing one raising. */
  method BuildChildren(b: Builder, qs: seq<QuadParams>, level: nat) returns (r: Result<seq<Tile>>)
    requires 0 < level <= b.depth
    requires forall q :: q in qs ==> q.level == level
    decreases Rank(b, level - 1), 0
    ensures r == CollectResults(ChildTiles(b, Attached(b, qs), level))
  {
    var children: seq<Tile> := [];
    for k := 0 to |qs|
      invariant CollectResults(ChildTiles(b, Attached(b, qs[..k]), level)) == Ok(children)
    {
      var q := qs[k];
      ghost var before := Attached(b, qs[..k]);
      AttachedStep(b, qs, k);
      if b.attached(q.uri) {
        var child := Quad(b, q, None);
        if child.Err? {
          FailingChildFails(b, qs, k, level);
          return Err(child.error);
        }
        assert Attached(b, qs[..k + 1]) == before + [q];
        ChildTilesAppend(b, before, [q], level);
        assert ChildTiles(b, [q], level) == [Ok(child.value)];
        assert ChildTiles(b, Attached(b, qs[..k + 1]), level) == ChildTiles(b, before, level) + [Ok(child.value)];
        CollectResultsAppendOk(ChildTiles(b, before, level), child.value);
        children := children + [child.value];
      } else {
        assert Attached(b, qs[..k + 1]) == before;
      }
    }
    assert qs[..|qs|] == qs;
    return Ok(children);
  }

  // ---------------------------------------------------------------------------
  // Properties of the tree

  /** A node built at `level`: its error is the schedule's entry `level + 1`, it refines by
    * replacement, has no transform, has children exactly when it is above the depth, and its
    * children are attached tiles built one level down. */
  predicate WellFormed(b: Builder, t: Tile, level: nat)
    decreases t
  {
    level + 1 < |b.errors| && t.geometricError == b.errors[level + 1] &&
    t.refine == "REPLACE" && t.transform.None? &&
    (t.children.Present? <==> level < b.depth) &&
    match t.children
    case Absent => true
    case Present(cs) =>
      forall i :: 0 <= i < |cs| ==>
        cs[i].content.Some? && b.attached(cs[i].content.value) && WellFormed(b, cs[i], level + 1)
  }

  /** A node built without a transform: its own error, refinement and content, and children
    * exactly above the depth. */
  lemma QuadShape(b: Builder, p: QuadParams, t: Tile)
    requires QuadSpec(b, p, None) == Ok(t)
    ensures p.level + 1 < |b.errors| && t.geometricError == b.errors[p.level + 1]
    ensures t.refine == "REPLACE" && t.transform.None?
    ensures t.children.Present? <==> p.level < b.depth
    ensures t.content == (if p.uri != "" then Some(p.uri) else None)
    ensures t.boundingVolume == Some(b.volume(p))
  {
    if p.level < b.depth {
      var children := ChildrenOf(b, p);
      assert t == Node(b, p, None, children.value);
    } else {
      assert t == Leaf(b, p);
    }
  }

  /** The children of a node without transform are exactly the trees of its attached
    * quadrants, in order. */
  lemma ChildrenAreAttachedQuadrants(b: Builder, p: QuadParams, t: Tile)
    requires QuadSpec(b, p, None) == Ok(t) && p.level < b.depth
    ensures ChildQuads(b, p).Ok? && t.children.Present?
    ensures var kept := Attached(b, ChildQuads(b, p).value);
      |t.children.tiles| == |kept| &&
      forall i :: 0 <= i < |kept| ==>
        kept[i].level == p.level + 1 && b.attached(kept[i].uri) &&
        QuadSpec(b, kept[i], None) == Ok(t.children.tiles[i])
  {
    var kept := Attached(b, ChildQuads(b, p).value);
    var rs := ChildTiles(b, kept, p.level + 1);
    assert t.children.tiles == CollectResults(rs).value by {
      assert ChildrenOf(b, p) == CollectResults(rs);
      assert t == Node(b, p, None, ChildrenOf(b, p).value);
    }
    CollectResultsOk(rs);
    AttachedQuadrantsAreChildren(b, p);
  }

  /** The kept quadrants are found and one level down. */
  lemma AttachedQuadrantsAreChildren(b: Builder, p: QuadParams)
    requires ChildQuads(b, p).Ok?
    ensures var kept := Attached(b, ChildQuads(b, p).value);
      forall i :: 0 <= i < |kept| ==> kept[i].level == p.level + 1 && b.attached(kept[i].uri)
  {
    var kept := Attached(b, ChildQuads(b, p).value);
    forall i | 0 <= i < |kept|
      ensures kept[i].level == p.level + 1 && b.attached(kept[i].uri)
    {
      assert kept[i] in kept;
    }
  }

  /** Every node built without a transform is well formed. */
  lemma {:induction false} QuadWellFormed(b: Builder, p: QuadParams, t: Tile)
    requires QuadSpec(b, p, None) == Ok(t)
    decreases Rank(b, p.level)
    ensures WellFormed(b, t, p.level)
  {
    QuadShape(b, p, t);
    if p.level < b.depth {
      ChildrenAreAttachedQuadrants(b, p, t);
      var kept := Attached(b, ChildQuads(b, p).value);
      var cs := t.children.tiles;
      forall i | 0 <= i < |cs|
        ensures cs[i].content.Some? && b.attached(cs[i].content.value) && WellFormed(b, cs[i], p.level + 1)
      {
        QuadShape(b, kept[i], cs[i]);
        QuadWellFormed(b, kept[i], cs[i]);
      }
    }
  }

  /** The schedule is too short for the node's own level: IndexError. */
  lemma ShortScheduleFails(b: Builder, p: QuadParams, transform: Option<Matrix4>)
    requires |b.errors| < p.level + 2
    ensures QuadSpec(b, p, transform) == Err(IndexError)
  {
  }

  /** A schedule with an entry for every level down to the depth and a non-empty extent: the
    * tree is built. */
  lemma {:induction false} LongScheduleSucceeds(b: Builder, p: QuadParams, transform: Option<Matrix4>)
    requires b.width != 0.0 && b.height != 0.0
    requires p.level + 1 < |b.errors| && b.depth + 1 < |b.errors|
    decreases Rank(b, p.level)
    ensures QuadSpec(b, p, transform).Ok?
  {
    if p.level < b.depth {
      var kept := Attached(b, ChildQuads(b, p).value);
      var rs := ChildTiles(b, kept, p.level + 1);
      forall i | 0 <= i < |rs|
        ensures rs[i].Ok?
      {
        assert kept[i] in kept;
        LongScheduleSucceeds(b, kept[i], None);
      }
      CollectResultsOk(rs);
    }
  }

  lemma {:induction false} AllFailAlike(rs: seq<Result<Tile>>, e: string)
    requires |rs| > 0 && forall i :: 0 <= i < |rs| ==> rs[i] == Err(e)
    ensures CollectResults(rs) == Err(e)
  {
    if |rs| > 1 {
      AllFailAlike(rs[..|rs| - 1], e);
    }
  }

  /** One entry short: a node just above the last scheduled level fails as soon as one of its
    * quadrants is attached, since that child's error is past the end of the schedule. */
  lemma DeepChildFails(b: Builder, p: QuadParams, transform: Option<Matrix4>)
    requires b.width != 0.0 && b.height != 0.0
    requires p.level < b.depth && |b.errors| == p.level + 2
    requires exists q :: q in ChildQuads(b, p).value && b.attached(q.uri)
    ensures QuadSpec(b, p, transform) == Err(IndexError)
  {
    var kept := Attached(b, ChildQuads(b, p).value);
    var q :| q in ChildQuads(b, p).value && b.attached(q.uri);
    AttachedKeepsFound(b, ChildQuads(b, p).value, q);
    var rs := ChildTiles(b, kept, p.level + 1);
    forall i | 0 <= i < |rs|
      ensures rs[i] == Err(IndexError)
    {
      assert kept[i] in kept;
      ShortScheduleFails(b, kept[i], None);
    }
    AllFailAlike(rs, IndexError);
    assert ChildrenOf(b, p) == Err(IndexError);
  }

  /** The outer node: given a transform, a node with children is wrapped in a node carrying the
    * transform and the schedule's entry for its own level, whose only child is the node itself;
    * a node at the depth keeps no transform. */
  lemma TransformWrapsRoot(b: Builder, p: QuadParams, m: Matrix4)
    requires QuadSpec(b, p, Some(m)).Ok?
    ensures QuadSpec(b, p, None).Ok?
    ensures var t := QuadSpec(b, p, Some(m)).value;
      (p.level < b.depth ==>
        (t.transform == Some(m) && t.geometricError == b.errors[p.level] && t.refine == "REPLACE" &&
         t.boundingVolume == Some(b.rootVolume(p.bbox)) && t.content.None? &&
         t.children == Present([QuadSpec(b, p, None).value]))) &&
      (p.level >= b.depth ==> (t == QuadSpec(b, p, None).value && t.transform.None? && t.children.Absent?))
  {
  }

  /** The schedule never increases along its entries. */
  predicate NonIncreasing(errors: seq<real>)
  {
    forall i, j :: 0 <= i < j < |errors| ==> errors[j] <= errors[i]
  }

  /** Errors never grow from a node to its children. */
  predicate Monotone(t: Tile)
    decreases t
  {
    match t.children
    case Absent => true
    case Present(cs) => forall i :: 0 <= i < |cs| ==> cs[i].geometricError <= t.geometricError && Monotone(cs[i])
  }

  /** With a non-increasing schedule, errors never grow down a well-formed tree. */
  lemma {:induction false} WellFormedIsMonotone(b: Builder, t: Tile, level: nat)
    requires NonIncreasing(b.errors) && WellFormed(b, t, level)
    decreases t
    ensures Monotone(t)
  {
    match t.children
    case Absent =>
    case Present(cs) =>
      forall i | 0 <= i < |cs|
        ensures cs[i].geometricError <= t.geometricError && Monotone(cs[i])
      {
        WellFormedIsMonotone(b, cs[i], level + 1);
      }
  }

  /** With a non-increasing schedule, errors never grow anywhere in the tree built with a
    * transform, the outer node included. */
  lemma RootMonotone(b: Builder, p: QuadParams, m: Matrix4)
    requires NonIncreasing(b.errors) && QuadSpec(b, p, Some(m)).Ok?
    ensures Monotone(QuadSpec(b, p, Some(m)).value)
  {
    TransformWrapsRoot(b, p, m);
    var inner := QuadSpec(b, p, None).value;
    QuadWellFormed(b, p, inner);
    WellFormedIsMonotone(b, inner, p.level);
    if p.level < b.depth {
      var t := QuadSpec(b, p, Some(m)).value;
      assert t.children.tiles[0] == inner;
      assert inner.geometricError <= t.geometricError;
    }
  }

  function Count(t: Tile): nat
    decreases t, 1
  {
    match t.children
    case Absent => 1
    case Present(cs) => 1 + CountAll(cs)
  }

  function CountAll(ts: seq<Tile>): nat
    decreases ts, 0
  {
    if |ts| == 0 then 0 else CountAll(ts[..|ts| - 1]) + Count(ts[|ts| - 1])
  }

  lemma {:induction false} CountAllOfEqual(ts: seq<Tile>, c: nat)
    requires forall i :: 0 <= i < |ts| ==> Count(ts[i]) == c
    ensures CountAll(ts) == |ts| * c
  {
    if |ts| > 0 {
      CountAllOfEqual(ts[..|ts| - 1], c);
    }
  }

  /** The number of nodes of a full quadtree `n` levels deep. */
  function FullSize(n: nat): nat
  {
    if n == 0 then 1 else 1 + 4 * FullSize(n - 1)
  }

  lemma {:induction false} FullSizeClosedForm(n: nat)
    ensures 3 * FullSize(n) == Pow4(n + 1) - 1
  {
    if n > 0 {
      FullSizeClosedForm(n - 1);
    }
  }

  /** When every tile is found, every quadrant is kept. */
  lemma {:induction false} AttachedAll(b: Builder, qs: seq<QuadParams>)
    requires forall u :: b.attached(u)
    ensures Attached(b, qs) == qs
  {
    if |qs| > 0 {
      var n := |qs| - 1;
      AttachedAll(b, qs[..n]);
      assert b.attached(qs[n].uri);
      assert qs[..n] + [qs[n]] == qs;
    }
  }

  /** When every quadrant is attached, a node above the depth has its four quadrants as
    * children. */
  lemma AllQuadrantsAttached(b: Builder, p: QuadParams, t: Tile)
    requires forall u :: b.attached(u)
    requires QuadSpec(b, p, None) == Ok(t) && p.level < b.depth
    ensures ChildQuads(b, p).Ok? && t.children.Present? && |t.children.tiles| == 4
    ensures forall i :: 0 <= i < 4 ==>
      ChildQuads(b, p).value[i].level == p.level + 1 &&
      QuadSpec(b, ChildQuads(b, p).value[i], None) == Ok(t.children.tiles[i])
  {
    var qs := ChildQuads(b, p).value;
    AttachedAll(b, qs);
    ChildrenAreAttachedQuadrants(b, p, t);
    forall i | 0 <= i < 4
      ensures qs[i].level == p.level + 1
    {
      assert qs[i] in qs;
    }
  }

  /** When every quadrant is attached, child `i` of a node above the depth has the volume of
    * quadrant `i`. */
  lemma ChildVolumes(b: Builder, p: QuadParams, t: Tile)
    requires forall u :: b.attached(u)
    requires QuadSpec(b, p, None) == Ok(t) && p.level < b.depth
    ensures ChildQuads(b, p).Ok? && t.children.Present? && |t.children.tiles| == 4
    ensures forall i :: 0 <= i < 4 ==> t.children.tiles[i].boundingVolume == Some(b.volume(ChildQuads(b, p).value[i]))
  {
    AllQuadrantsAttached(b, p, t);
    var qs := ChildQuads(b, p).value;
    forall i | 0 <= i < 4
      ensures t.children.tiles[i].boundingVolume == Some(b.volume(qs[i]))
    {
      QuadShape(b, qs[i], t.children.tiles[i]);
    }
  }

  /** When every quadrant is attached, a node `n` levels above the depth heads a full quadtree
    * of (4^(n + 1) - 1) / 3 tiles. */
  lemma {:induction false} FullTreeCount(b: Builder, p: QuadParams, t: Tile, n: nat)
    requires forall u :: b.attached(u)
    requires QuadSpec(b, p, None) == Ok(t) && p.level + n == b.depth
    decreases n
    ensures Count(t) == FullSize(n)
    ensures 3 * Count(t) == Pow4(n + 1) - 1
  {
    FullSizeClosedForm(n);
    if n > 0 {
      AllQuadrantsAttached(b, p, t);
      var qs := ChildQuads(b, p).value;
      var cs := t.children.tiles;
      forall i | 0 <= i < |cs|
        ensures Count(cs[i]) == FullSize(n - 1)
      {
        FullTreeCount(b, qs[i], cs[i], n - 1);
      }
      CountAllOfEqual(cs, FullSize(n - 1));
      assert Count(t) == 1 + CountAll(cs);
    }
  }
}
