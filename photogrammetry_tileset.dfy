/** The photogrammetry tileset builder (`run` in `create_tileset.py`): it shifts the configured
  * centre by the offset in place, builds the geometric-error schedule `max / (level + 1)^2`,
  * and writes a quadtree down to the configured depth in which every node has its four
  * quadrants as children and an oriented box as bounding volume. The root carries the
  * ENU-to-ECEF transform and a region plus the box of the whole model. */
module PhotogrammetryTileset {
  import opened Wrappers
  import opened Numbers
  import opened PyValues
  import opened Tiles

  /** The `config` dict: `size` (width, height, vertical extent), `depth`, `offset` (an empty
    * list stands for a missing or empty one, both falsy), `max_geometric_error` when given,
    * and the centre's `crs`. */
  datatype Config = Config(size: seq<real>, depth: int, offset: seq<real>, maxGeometricError: Option<real>, crs: string)

  /** What `run` takes from outside: pyproj's transformation from the centre's CRS to WGS84,
    * `math.sqrt`, `rad`, and the trigonometry and ECEF origin `get_transform` computes for a
    * latitude, longitude and altitude at scale 1. */
  datatype Hosts = Hosts(
    reproject: ((real, real, real), string) -> (real, real, real),
    sqrt: real -> real,
    rad: real -> real,
    geodetic: (real, real, real) -> Geodetic)

  // ---------------------------------------------------------------------------
  // The centre offset, applied in place

  /** The coordinates after the three `+=` statements and the error, if any, that stopped
    * them: each statement reads the coordinate before the offset entry, so a short list of
    * coordinates raises before a short offset, and the entries already shifted stay
    * shifted. */
  function OffsetSpec(coords: seq<real>, offset: seq<real>): (seq<real>, Option<string>)
  {
    if |offset| == 0 then (coords, None)
    else if |coords| < 1 then (coords, Some(IndexError))
    else
      var c0 := coords[0 := coords[0] + offset[0]];
      if |coords| < 2 || |offset| < 2 then (c0, Some(IndexError))
      else
        var c1 := c0[1 := c0[1] + offset[1]];
        if |coords| < 3 then (c1, Some(IndexError))
        else (c1[2 := c1[2] + if |offset| > 2 then offset[2] else 0.0], None)
  }

  /** `if offset: coordinates[0] += offset[0]; ...` on the caller's list. */
  method ApplyOffset(coordinates: array<real>, offset: seq<real>) returns (err: Option<string>)
    modifies coordinates
    ensures (coordinates[..], err) == OffsetSpec(old(coordinates[..]), offset)
  {
    if |offset| == 0 {
      return None;
    }
    if coordinates.Length < 1 {
      return Some(IndexError);
    }
    coordinates[0] := coordinates[0] + offset[0];
    if coordinates.Length < 2 || |offset| < 2 {
      return Some(IndexError);
    }
    coordinates[1] := coordinates[1] + offset[1];
    if coordinates.Length < 3 {
      return Some(IndexError);
    }
    coordinates[2] := coordinates[2] + if |offset| > 2 then offset[2] else 0.0;
    return None;
  }

  /** The offset either shifts x and y (and z when it has a third entry) and nothing else, or
    * raises IndexError exactly when it has a single entry or the centre has fewer than three
    * coordinates; a missing offset changes nothing. */
  lemma OffsetOutcome(coords: seq<real>, offset: seq<real>)
    ensures var (c, err) := OffsetSpec(coords, offset);
      |c| == |coords| &&
      (err.Some? <==> |offset| > 0 && (|offset| < 2 || |coords| < 3)) &&
      (err.Some? ==> err.value == IndexError) &&
      (|offset| == 0 ==> c == coords) &&
      (err.None? && |offset| > 0 ==>
        c[0] - coords[0] == offset[0] && c[1] - coords[1] == offset[1] &&
        c[2] - coords[2] == (if |offset| > 2 then offset[2] else 0.0) &&
        c[3..] == coords[3..])
  {
  }

  /** An offset with a single entry still shifts x before `offset[1]` raises: the caller's
    * centre is left half updated. */
  lemma OffsetPartialOnError(coords: seq<real>, offset: seq<real>)
    requires |offset| == 1 && |coords| >= 1
    ensures OffsetSpec(coords, offset).1 == Some(IndexError)
    ensures OffsetSpec(coords, offset).0 == coords[0 := coords[0] + offset[0]]
  {
  }

  // ---------------------------------------------------------------------------
  // The geometric-error schedule

  /** The number of levels `range(depth + 1)` visits. */
  function Levels(depth: int): nat
  {
    if depth + 1 > 0 then depth + 1 else 0
  }

  /** `max_geometric_error / ((level + 1) ** 2)` */
  function LevelError(maxError: real, level: nat): real
  {
    maxError / ((level + 1) * (level + 1)) as real
  }

  /** `geometric_errors`: one entry per level, then 0. */
  function ErrorSchedule(maxError: real, depth: int): seq<real>
  {
    seq(Levels(depth), l requires 0 <= l => LevelError(maxError, l)) + [0.0]
  }

  /** The loop that builds `geometric_errors`. */
  method GeometricErrors(maxError: real, depth: int) returns (errors: seq<real>)
    ensures errors == ErrorSchedule(maxError, depth)
  {
    errors := [];
    for level := 0 to Levels(depth)
      invariant errors == seq(level, l requires 0 <= l => LevelError(maxError, l))
    {
      errors := errors + [maxError / ((level + 1) * (level + 1)) as real];
    }
    errors := errors + [0.0];
  }

  /** The schedule has `depth + 2` entries (one when the depth is below -1); entry `l` times
    * `(l + 1)^2` is the maximum, and the last one is 0. */
  lemma ScheduleShape(maxError: real, depth: int)
    ensures var e := ErrorSchedule(maxError, depth);
      |e| == (if depth >= -1 then depth + 2 else 1) && e[|e| - 1] == 0.0 &&
      forall l :: 0 <= l < |e| - 1 ==> e[l] * ((l + 1) * (l + 1)) as real == maxError
  {
    var e := ErrorSchedule(maxError, depth);
    ScheduleEntries(maxError, depth);
    forall l | 0 <= l < |e| - 1
      ensures e[l] * ((l + 1) * (l + 1)) as real == maxError
    {
      assert e[l] == LevelError(maxError, l);
      LevelErrorTimes(maxError, l);
    }
  }

  /** A level's error times its divisor gives the maximum back. */
  lemma LevelErrorTimes(maxError: real, l: nat)
    ensures LevelError(maxError, l) * ((l + 1) * (l + 1)) as real == maxError
  {
    SquaresGrow(l, l + 1);
    DivTimes(maxError, ((l + 1) * (l + 1)) as real);
  }

  lemma ScheduleEntries(maxError: real, depth: int)
    ensures var e := ErrorSchedule(maxError, depth);
      |e| == Levels(depth) + 1 && e[Levels(depth)] == 0.0 &&
      forall l :: 0 <= l < Levels(depth) ==> e[l] == LevelError(maxError, l)
  {
  }

  lemma DivTimes(m: real, d: real)
    requires d != 0.0
    ensures m / d * d == m
  {
  }

  lemma SquaresGrow(i: nat, j: nat)
    requires i < j
    ensures 0 < (i + 1) * (i + 1) < (j + 1) * (j + 1)
  {
    assert (i + 1) * (i + 1) <= (i + 1) * (j + 1) < (j + 1) * (j + 1);
  }

  /** A positive maximum divided by a larger positive number gives less. */
  lemma DivShrinks(m: real, a: real, b: real)
    requires m > 0.0 && 0.0 < a < b
    ensures 0.0 < m / b < m / a
  {
    assert m / b * b == m && m / a * a == m;
    assert m / b * a < m / b * b;
  }

  /** With a positive maximum the schedule is strictly decreasing: every level is coarser
    * than the next one, down to the final 0. */
  lemma {:induction false} ScheduleDecreasing(maxError: real, depth: int)
    requires maxError > 0.0
    ensures var e := ErrorSchedule(maxError, depth);
      forall i, j :: 0 <= i < j < |e| ==> e[j] < e[i]
  {
    var e := ErrorSchedule(maxError, depth);
    var n := |e| - 1;
    forall i, j | 0 <= i < j < |e|
      ensures e[j] < e[i]
    {
      assert e[i] == LevelError(maxError, i);
      SquaresGrow(i, j);
      var a := ((i + 1) * (i + 1)) as real;
      if j < n {
        assert e[j] == LevelError(maxError, j);
        DivShrinks(maxError, a, ((j + 1) * (j + 1)) as real);
      } else {
        DivShrinks(maxError, a, a + 1.0);
      }
    }
  }

  /** With a maximum that is not negative, errors never grow along the schedule. */
  lemma ScheduleNonIncreasing(maxError: real, depth: int)
    requires maxError >= 0.0
    ensures NonIncreasing(ErrorSchedule(maxError, depth))
  {
    var e := ErrorSchedule(maxError, depth);
    if maxError > 0.0 {
      ScheduleDecreasing(maxError, depth);
    } else {
      forall i, j | 0 <= i < j < |e|
        ensures e[j] <= e[i]
      {
        assert e[i] == 0.0 && e[j] == 0.0;
      }
    }
  }

  // ---------------------------------------------------------------------------
  // Boxes

  /** `to_box(x, y, level, size)`: the oriented box of tile `(x, y)` at `level`, centred in a
    * frame whose origin is the middle of the model, x to the right and y upwards (row 0 at
    * the top): the centre, then the three half-axes. */
  function ToBox(x: int, y: int, level: nat, width: real, height: real, depth: real): (box: seq<real>)
    ensures |box| == 12
  {
    var wUnit := LevelExtent(width, level);
    var hUnit := LevelExtent(height, level);
    [-(width / 2.0) + x as real * wUnit + wUnit / 2.0, height / 2.0 - y as real * hUnit - hUnit / 2.0, 0.0,
     wUnit / 2.0, 0.0, 0.0,
     0.0, hUnit / 2.0, 0.0,
     0.0, 0.0, depth / 2.0]
  }

  /** The box of the whole level-0 tile is centred on the origin with half the size as
    * half-axes. */
  lemma RootBox(width: real, height: real, depth: real)
    ensures ToBox(0, 0, 0, width, height, depth) ==
      [0.0, 0.0, 0.0, width / 2.0, 0.0, 0.0, 0.0, height / 2.0, 0.0, 0.0, 0.0, depth / 2.0]
  {
  }

  /** One axis of a child: column `2x + dx` one level down lies a quarter of the parent's
    * extent left (dx = 0) or right (dx = 1) of the parent's centre, with half its extent. */
  lemma ChildCentre(x: int, dx: int, w: real, u: real, v: real)
    requires dx == 0 || dx == 1
    requires u == 2.0 * v
    ensures -(w / 2.0) + (2 * x + dx) as real * v + v / 2.0 ==
      (-(w / 2.0) + x as real * u + u / 2.0) + (2 * dx - 1) as real * (u / 2.0) / 2.0
  {
    assert (2 * x + dx) as real * v == x as real * u + dx as real * v;
  }

  /** The four children of a tile split its box: each child's centre is a quarter of the
    * parent's width and height away from the parent's centre (right for odd columns, down for
    * odd rows), its horizontal half-axes are halved and its vertical one is kept. */
  lemma ChildBoxSplit(x: int, y: int, level: nat, dx: int, dy: int, width: real, height: real, depth: real)
    requires (dx == 0 || dx == 1) && (dy == 0 || dy == 1)
    ensures var parent := ToBox(x, y, level, width, height, depth);
      var child := ToBox(2 * x + dx, 2 * y + dy, level + 1, width, height, depth);
      child[0] == parent[0] + (2 * dx - 1) as real * parent[3] / 2.0 &&
      child[1] == parent[1] - (2 * dy - 1) as real * parent[7] / 2.0 &&
      child[3] == parent[3] / 2.0 && child[7] == parent[7] / 2.0 && child[11] == parent[11] &&
      child[2] == 0.0 && child[4] == 0.0 && child[5] == 0.0 && child[6] == 0.0 && child[8] == 0.0 &&
      child[9] == 0.0 && child[10] == 0.0
  {
    var u := LevelExtent(width, level);
    var v := LevelExtent(width, level + 1);
    ChildCentre(x, dx, width, u, v);
    var uh := LevelExtent(height, level);
    var vh := LevelExtent(height, level + 1);
    ChildCentre(y, dy, -height, uh, vh);
  }

  // ---------------------------------------------------------------------------
  // `run`

  /** `region(bbox)`: the corners converted to WGS84, in radians, second coordinate first,
    * then the vertical span. */
  function Region(h: Hosts, crs: string, bbox: BBox, minZ: real, maxZ: real): (r: seq<real>)
    ensures |r| == 6 && r[4] == minZ && r[5] == maxZ
  {
    var lb := h.reproject((bbox.minX, bbox.minY, 0.0), crs);
    var rt := h.reproject((bbox.maxX, bbox.maxY, 0.0), crs);
    [h.rad(lb.1), h.rad(lb.0), h.rad(rt.1), h.rad(rt.0), minZ, maxZ]
  }

  /** The quadtree `run` builds for a size and schedule: every quadrant attached, each node's
    * box from `to_box`, and the root's region plus the box of the whole model. */
  function PhotoBuilder(h: Hosts, crs: string, errors: seq<real>, depth: int, size: seq<real>, minZ: real, maxZ: real): Builder
    requires |size| >= 3
  {
    var width := size[0];
    var height := size[1];
    var vertical := size[2];
    Builder(errors, depth, width, height, (u: string) => true,
      (p: QuadParams) => Volume(None, Some(ToBox(p.x, p.y, p.level, width, height, vertical))),
      (bb: BBox) => Volume(Some(Region(h, crs, bb, minZ, maxZ)), Some(ToBox(0, 0, 0, width, height, vertical))))
  }

  /** What the builder does: every quadrant attached, the box of each quadrant. */
  lemma PhotoBuilderFacts(h: Hosts, crs: string, errors: seq<real>, depth: int, size: seq<real>, minZ: real, maxZ: real)
    requires |size| >= 3
    ensures var b := PhotoBuilder(h, crs, errors, depth, size, minZ, maxZ);
      b.errors == errors && b.depth == depth && b.width == size[0] && b.height == size[1] &&
      (forall u :: b.attached(u)) &&
      (forall q :: b.volume(q) == Volume(None, Some(ToBox(q.x, q.y, q.level, size[0], size[1], size[2])))) &&
      (forall bb :: b.rootVolume(bb) == Volume(Some(Region(h, crs, bb, minZ, maxZ)), Some(ToBox(0, 0, 0, size[0], size[1], size[2]))))
  {
  }

  /** The maximum error: `max_geometric_error` when configured, else a quarter of the
    * diagonal. */
  function MaxError(config: Config, h: Hosts): real
    requires |config.size| >= 2
  {
    var diagonal := h.sqrt(config.size[0] * config.size[0] + config.size[1] * config.size[1]);
    if config.maxGeometricError.Some? then config.maxGeometricError.value else diagonal / 4.0
  }

  /** Everything `run` computes before calling `quad` on the root, from the centre already
    * shifted. */
  datatype Plan = Plan(builder: Builder, root: QuadParams, transform: Matrix4)

  function Prepare(config: Config, centre: seq<real>, h: Hosts): (r: Result<Plan>)
    ensures r.Ok? <==> |config.size| >= 3 && |centre| >= 3
    ensures r.Err? ==> r.error == IndexError
    ensures r.Ok? ==> var b := r.value.builder;
      b == PhotoBuilder(h, config.crs, ErrorSchedule(MaxError(config, h), config.depth), config.depth, config.size,
                        centre[2] - config.size[2] / 2.0, centre[2] + config.size[2] / 2.0) &&
      r.value.root == QuadParams(BBox(centre[0] - b.width / 2.0, centre[1] - b.height / 2.0,
                                      centre[0] + b.width / 2.0, centre[1] + b.height / 2.0), 0, 0, 0, "0_0_0.glb")
  {
    var size := config.size;
    if |size| < 2 || |centre| < 3 || |size| < 3 then Err(IndexError)
    else
      var errors := ErrorSchedule(MaxError(config, h), config.depth);
      var coords := h.reproject((centre[0], centre[1], 0.0), config.crs);
      var z := centre[2];
      var width := size[0];
      var height := size[1];
      var builder := PhotoBuilder(h, config.crs, errors, config.depth, size, z - size[2] / 2.0, z + size[2] / 2.0);
      var bbox := BBox(centre[0] - width / 2.0, centre[1] - height / 2.0, centre[0] + width / 2.0, centre[1] + height / 2.0);
      var transform := EcefTransform(h.geodetic(coords.0, coords.1, z), 1.0);
      Ok(Plan(builder, QuadParams(bbox, 0, 0, 0, "0_0_0.glb"), transform))
  }

  /** The plan `run` builds once the size and the centre `x`, `y`, `z` have three entries. */
  lemma PreparePlan(config: Config, centre: seq<real>, h: Hosts, x: real, y: real, z: real)
    requires |config.size| >= 3 && |centre| >= 3 && centre[0] == x && centre[1] == y && centre[2] == z
    ensures var size := config.size;
      var coords := h.reproject((x, y, 0.0), config.crs);
      Prepare(config, centre, h) == Ok(Plan(
        PhotoBuilder(h, config.crs, ErrorSchedule(MaxError(config, h), config.depth), config.depth, size,
                     z - size[2] / 2.0, z + size[2] / 2.0),
        QuadParams(BBox(x - size[0] / 2.0, y - size[1] / 2.0, x + size[0] / 2.0, y + size[1] / 2.0), 0, 0, 0, "0_0_0.glb"),
        EcefTransform(h.geodetic(coords.0, coords.1, z), 1.0)))
  {
  }

  /** `run(config)` on the centre as it was before the call: the offset, then the tileset
    * with version 1.1 and the root quad carrying the transform. */
  function RunSpec(config: Config, coordinates: seq<real>, h: Hosts): Result<Tileset>
  {
    var (centre, err) := OffsetSpec(coordinates, config.offset);
    if err.Some? then Err(err.value)
    else PlanTileset(Prepare(config, centre, h))
  }

  /** The tileset built from a plan: version 1.1 around the root quad carrying the transform. */
  function PlanTileset(plan: Result<Plan>): Result<Tileset>
  {
    if plan.Err? then Err(plan.error)
    else
      var root := QuadSpec(plan.value.builder, plan.value.root, Some(plan.value.transform));
      if root.Err? then Err(root.error) else Ok(Tileset("1.1", root.value))
  }

  /** `run(config)`: the centre's coordinates are the caller's list, shifted in place. */
  method Run(config: Config, coordinates: array<real>, h: Hosts) returns (r: Result<Tileset>)
    modifies coordinates
    ensures coordinates[..] == OffsetSpec(old(coordinates[..]), config.offset).0
    ensures r == RunSpec(config, old(coordinates[..]), h)
  {
    var err := ApplyOffset(coordinates, config.offset);
    if err.Some? {
      return Err(err.value);
    }
    r := BuildTileset(config, coordinates, h);
  }

  /** The rest of `run`, once the offset is applied: the plan read from the shifted centre, then
    * the tree. */
  method BuildTileset(config: Config, coordinates: array<real>, h: Hosts) returns (r: Result<Tileset>)
    ensures r == PlanTileset(Prepare(config, coordinates[..], h))
  {
    ghost var centre := coordinates[..];
    var size := config.size;
    if |size| < 2 {
      return Err(IndexError);
    }
    var maxError := MaxError(config, h);
    var errors := GeometricErrors(maxError, config.depth);
    if coordinates.Length < 2 {
      return Err(IndexError);
    }
    var x, y := coordinates[0], coordinates[1];
    var coords := h.reproject((x, y, 0.0), config.crs);
    if coordinates.Length < 3 {
      return Err(IndexError);
    }
    var z := coordinates[2];
    var width := size[0];
    var height := size[1];
    if |size| < 3 {
      return Err(IndexError);
    }
    var builder := PhotoBuilder(h, config.crs, errors, config.depth, size, z - size[2] / 2.0, z + size[2] / 2.0);
    var transform := EcefTransform(h.geodetic(coords.0, coords.1, z), 1.0);
    var bbox := BBox(x - width / 2.0, y - height / 2.0, x + width / 2.0, y + height / 2.0);
    var params := QuadParams(bbox, 0, 0, 0, "0_0_0.glb");
    PreparePlan(config, centre, h, x, y, z);
    assert Prepare(config, centre, h) == Ok(Plan(builder, params, transform));
    var root := Quad(builder, params, Some(transform));
    if root.Err? {
      return Err(root.error);
    }
    return Ok(Tileset("1.1", root.value));
  }

  // ---------------------------------------------------------------------------
  // Properties of `run`

  /** The centre the tree is built around: the coordinates after the offset. */
  function Centre(config: Config, coordinates: seq<real>): seq<real>
  {
    OffsetSpec(coordinates, config.offset).0
  }

  /** `run` succeeds exactly when the offset applies, the size and the shifted centre have
    * three entries, the depth is at least 0 (a depth below it leaves the schedule `[0]`, too
    * short for the root) and, when the depth is positive, the width and height are not 0
    * (the child index divides by the child's extent). */
  lemma RunSucceeds(config: Config, coordinates: seq<real>, h: Hosts)
    ensures RunSpec(config, coordinates, h).Ok? <==>
      OffsetSpec(coordinates, config.offset).1.None? &&
      |config.size| >= 3 && |Centre(config, coordinates)| >= 3 && config.depth >= 0 &&
      (config.depth > 0 ==> config.size[0] != 0.0 && config.size[1] != 0.0)
    ensures RunSpec(config, coordinates, h).Err? ==> RunSpec(config, coordinates, h).error in {IndexError, ZeroDivisionError}
  {
    var (centre, err) := OffsetSpec(coordinates, config.offset);
    OffsetOutcome(coordinates, config.offset);
    if err.None? {
      var plan := Prepare(config, centre, h);
      if plan.Ok? {
        var b := plan.value.builder;
        var size := config.size;
        PhotoBuilderFacts(h, config.crs, b.errors, config.depth, size, centre[2] - size[2] / 2.0, centre[2] + size[2] / 2.0);
        var p := plan.value.root;
        var m := plan.value.transform;
        ScheduleShape(MaxError(config, h), config.depth);
        if config.depth < 0 {
          ShortScheduleFails(b, p, Some(m));
        } else if config.depth == 0 {
          assert QuadSpec(b, p, Some(m)).Ok?;
        } else if config.size[0] != 0.0 && config.size[1] != 0.0 {
          LongScheduleSucceeds(b, p, Some(m));
        } else {
          assert ChildQuads(b, p).Err?;
          assert ChildrenOf(b, p).Err?;
        }
      }
    }
  }

  /** Below the root wrapper the tree is full: with a depth `n >= 0` the root tile heads
    * (4^(n + 1) - 1) / 3 tiles, since no existence check drops a quadrant. */
  lemma RunFullTree(config: Config, coordinates: seq<real>, h: Hosts)
    requires RunSpec(config, coordinates, h).Ok?
    ensures config.depth >= 0
    ensures var root := RunSpec(config, coordinates, h).value.root;
      var inner := if config.depth > 0 then root.children.tiles[0] else root;
      (config.depth > 0 ==> root.children.Present? && |root.children.tiles| == 1) &&
      3 * Count(inner) == Pow4(config.depth + 1) - 1
  {
    RunSucceeds(config, coordinates, h);
    var centre := Centre(config, coordinates);
    var plan := Prepare(config, centre, h).value;
    var b := plan.builder;
    var size := config.size;
    PhotoBuilderFacts(h, config.crs, b.errors, config.depth, size, centre[2] - size[2] / 2.0, centre[2] + size[2] / 2.0);
    TransformWrapsRoot(b, plan.root, plan.transform);
    var inner := QuadSpec(b, plan.root, None).value;
    FullTreeCount(b, plan.root, inner, config.depth);
  }

  /** With a maximum error that is not negative, errors never grow down the tileset, the
    * root wrapper included. */
  lemma RunMonotone(config: Config, coordinates: seq<real>, h: Hosts)
    requires RunSpec(config, coordinates, h).Ok?
    requires MaxError(config, h) >= 0.0
    ensures Monotone(RunSpec(config, coordinates, h).value.root)
  {
    var plan := Prepare(config, Centre(config, coordinates), h).value;
    ScheduleNonIncreasing(MaxError(config, h), config.depth);
    RootMonotone(plan.builder, plan.root, plan.transform);
  }

  /** Every tile below the root wrapper has the box of its quadrant, and the four children of
    * a tile above the depth are its quadrants `(2x + dx, 2y + dy)` in the order upper-left,
    * upper-right, lower-left, lower-right, so their boxes split the parent's box
    * (`ChildBoxSplit`). */
  lemma RunChildBoxes(config: Config, centre: seq<real>, h: Hosts, p: QuadParams, t: Tile)
    requires Prepare(config, centre, h).Ok?
    requires QuadSpec(Prepare(config, centre, h).value.builder, p, None) == Ok(t)
    requires p.level < config.depth
    ensures var size := config.size;
      t.boundingVolume == Some(Volume(None, Some(ToBox(p.x, p.y, p.level, size[0], size[1], size[2])))) &&
      t.children.Present? && |t.children.tiles| == 4 &&
      var cs := t.children.tiles; var l := p.level + 1;
      cs[0].boundingVolume == Some(Volume(None, Some(ToBox(2 * p.x, 2 * p.y, l, size[0], size[1], size[2])))) &&
      cs[1].boundingVolume == Some(Volume(None, Some(ToBox(2 * p.x + 1, 2 * p.y, l, size[0], size[1], size[2])))) &&
      cs[2].boundingVolume == Some(Volume(None, Some(ToBox(2 * p.x, 2 * p.y + 1, l, size[0], size[1], size[2])))) &&
      cs[3].boundingVolume == Some(Volume(None, Some(ToBox(2 * p.x + 1, 2 * p.y + 1, l, size[0], size[1], size[2]))))
  {
    var b := Prepare(config, centre, h).value.builder;
    var size := config.size;
    PhotoBuilderFacts(h, config.crs, b.errors, config.depth, size, centre[2] - size[2] / 2.0, centre[2] + size[2] / 2.0);
    var box := (x: int, y: int, level: nat) => ToBox(x, y, level, size[0], size[1], size[2]);
    QuadrantBoxes(b, box, p, t);
  }

  /** In a tree where every quadrant is attached and each tile's volume is the box of its
    * column, row and level, the children of a tile above the depth have the boxes of columns
    * `2x, 2x + 1` and rows `2y, 2y + 1` one level down. */
  lemma QuadrantBoxes(b: Builder, box: (int, int, nat) -> seq<real>, p: QuadParams, t: Tile)
    requires forall u :: b.attached(u)
    requires forall q :: b.volume(q) == Volume(None, Some(box(q.x, q.y, q.level)))
    requires QuadSpec(b, p, None) == Ok(t) && p.level < b.depth
    ensures t.boundingVolume == Some(Volume(None, Some(box(p.x, p.y, p.level))))
    ensures t.children.Present? && |t.children.tiles| == 4
    ensures var cs := t.children.tiles; var l := p.level + 1;
      cs[0].boundingVolume == Some(Volume(None, Some(box(2 * p.x, 2 * p.y, l)))) &&
      cs[1].boundingVolume == Some(Volume(None, Some(box(2 * p.x + 1, 2 * p.y, l)))) &&
      cs[2].boundingVolume == Some(Volume(None, Some(box(2 * p.x, 2 * p.y + 1, l)))) &&
      cs[3].boundingVolume == Some(Volume(None, Some(box(2 * p.x + 1, 2 * p.y + 1, l))))
  {
    QuadShape(b, p, t);
    ChildVolumes(b, p, t);
    ChildPositions(b, p);
  }
}
