/** The mesh tileset builder (`create_tileset` in the mesh worker): it reads the tiler's
  * `info.json` (size, depth, centre offset), places the centre, parses the comma-separated
  * geometric-error schedule and builds the quadtree, attaching a child quadrant only when its
  * `{level}_{y}_{x}.glb` file exists. The root carries the ENU-to-ECEF transform. */
module MeshTileset {
  import opened Wrappers
  import opened Numbers
  import opened Text
  import opened PyValues
  import opened Tiles

  /** `info.json` as written by the tiler: `size`, `depth` and `center` (an empty list stands
    * for a missing or empty `center`, both falsy). */
  datatype Info = Info(size: seq<real>, depth: int, center: seq<real>)

  /** The worker's config: each member `None` when the key is absent. */
  datatype Config = Config(zOffset: Option<real>, geometricErrors: Option<string>, crs: Option<string>)

  /** What the builder takes from outside: whether a file exists under the output directory,
    * pyproj's `cs2cs` in both directions (always x, y order), the radians of a degree value, the
    * trigonometry and ECEF origin `to_ecef_transform` computes for a latitude, longitude and
    * altitude at scale 1, and the interpreter's `float()`. */
  datatype Hosts = Hosts(
    fileExists: string -> bool,
    fromWgs84: ((real, real, real), string) -> (real, real, real),
    toWgs84: ((real, real), string) -> (real, real, real),
    rad: real -> real,
    geodetic: (real, real, real) -> Geodetic,
    ip: Interpreter)

  const DefaultErrors: string := "200,100,20,5,0"
  const DefaultCrs: string := "EPSG:7791"
  const FileNotFoundError: string := "FileNotFoundError"

  /** The fixed starting point `lat0, lon0, alt0`. */
  const Lat0: real := 43.7742375737494
  const Lon0: real := 11.258511650022717

  /** `check_uri`: the quadrant as a one-element list when its tile file exists, else empty. */
  function CheckUri(fileExists: string -> bool, q: QuadParams): (r: seq<QuadParams>)
    ensures |r| <= 1 && (r != [] <==> fileExists(q.uri)) && forall x :: x in r ==> x == q
  {
    if fileExists(q.uri) then [q] else []
  }

  /** The children loop extends the list with `check_uri` of each quadrant in turn: the kept
    * quadrants are exactly those. */
  lemma CheckUriExtends(b: Builder, qs: seq<QuadParams>, k: nat)
    requires k < |qs|
    ensures Attached(b, qs[..k + 1]) == Attached(b, qs[..k]) + CheckUri(b.attached, qs[k])
  {
    AttachedStep(b, qs, k);
  }

  /** `[float(x) for x in s.split(',')]` */
  function ParseErrors(ip: Interpreter, s: string): Result<seq<real>>
  {
    ParseAll(PieceReader(ip), Split(s, ','))
  }

  /** `float()` applied to one piece of the schedule text. */
  function PieceReader(ip: Interpreter): string -> Option<Number>
  {
    (piece: string) => FloatOfText(ip, piece)
  }

  predicate IsFiniteFloat(read: string -> Option<Number>, piece: string)
  {
    var f := read(piece);
    f.Some? && f.value.Finite?
  }

  /** `float()` of each piece in turn; ValueError at the first piece that is not a number. A
    * piece `float()` reads as an infinity or NaN is also refused here, where Python keeps it:
    * the schedule's entries are exact reals. */
  function ParseAll(read: string -> Option<Number>, pieces: seq<string>): Result<seq<real>>
  {
    if |pieces| == 0 then Ok([])
    else
      var f := read(pieces[0]);
      if f.None? || !f.value.Finite? then Err(ValueError)
      else
        var rest := ParseAll(read, pieces[1..]);
        if rest.Err? then rest else Ok([f.value.r] + rest.value)
  }

  /** The schedule is read exactly when every piece is a finite number, and then entry `i` is
    * the value of piece `i`. */
  lemma {:induction false} ParseAllValues(read: string -> Option<Number>, pieces: seq<string>)
    ensures ParseAll(read, pieces).Ok? <==> forall i :: 0 <= i < |pieces| ==> IsFiniteFloat(read, pieces[i])
    ensures ParseAll(read, pieces).Err? ==> ParseAll(read, pieces).error == ValueError
    ensures ParseAll(read, pieces).Ok? ==> (|ParseAll(read, pieces).value| == |pieces| &&
      forall i :: 0 <= i < |pieces| ==> read(pieces[i]) == Some(Finite(ParseAll(read, pieces).value[i])))
  {
    if |pieces| > 0 {
      ParseAllValues(read, pieces[1..]);
      var r := ParseAll(read, pieces);
      if !IsFiniteFloat(read, pieces[0]) {
        assert r.Err?;
      } else if r.Ok? {
        var rest := ParseAll(read, pieces[1..]).value;
        assert r.value == [read(pieces[0]).value.r] + rest;
        forall i | 0 <= i < |pieces|
          ensures IsFiniteFloat(read, pieces[i]) && read(pieces[i]) == Some(Finite(r.value[i]))
        {
          if i > 0 {
            assert pieces[i] == pieces[1..][i - 1];
          }
        }
      } else {
        assert ParseAll(read, pieces[1..]).Err?;
        var j :| 0 <= j < |pieces[1..]| && !IsFiniteFloat(read, pieces[1..][j]);
        assert pieces[1..][j] == pieces[j + 1];
      }
    }
  }

  /** The default schedule reads as the five levels 200, 100, 20, 5, 0. */
  lemma DefaultSchedule(ip: Interpreter)
    ensures ParseErrors(ip, DefaultErrors) == Ok([200.0, 100.0, 20.0, 5.0, 0.0])
    ensures NonIncreasing([200.0, 100.0, 20.0, 5.0, 0.0])
  {
    var levels := [200.0, 100.0, 20.0, 5.0, 0.0];
    assert NonIncreasing(levels) by {
      forall i, j | 0 <= i < j < |levels|
        ensures levels[j] <= levels[i]
      {
      }
    }
    var read := PieceReader(ip);
    assert ParseAll(read, ["200", "100", "20", "5", "0"]) == Ok([200.0, 100.0, 20.0, 5.0, 0.0]) by {
      DefaultPieces(ip);
      ParseFive(read, "200", "100", "20", "5", "0", 200.0, 100.0, 20.0, 5.0, 0.0);
    }
    SplitDefault();
  }

  lemma ParseFive(read: string -> Option<Number>, a: string, b: string, c: string, d: string, e: string,
                  va: real, vb: real, vc: real, vd: real, ve: real)
    requires read(a) == Some(Finite(va)) && read(b) == Some(Finite(vb))
    requires read(c) == Some(Finite(vc)) && read(d) == Some(Finite(vd))
    requires read(e) == Some(Finite(ve))
    ensures ParseAll(read, [a, b, c, d, e]) == Ok([va, vb, vc, vd, ve])
  {
    assert ParseAll(read, []) == Ok([]);
    ParseOne(read, e, [], ve, []);
    assert [e] == [e] + [] && [ve] == [ve] + [];
    ParseOne(read, d, [e], vd, [ve]);
    assert [d, e] == [d] + [e] && [vd, ve] == [vd] + [ve];
    ParseOne(read, c, [d, e], vc, [vd, ve]);
    assert [c, d, e] == [c] + [d, e] && [vc, vd, ve] == [vc] + [vd, ve];
    ParseOne(read, b, [c, d, e], vb, [vc, vd, ve]);
    assert [b, c, d, e] == [b] + [c, d, e] && [vb, vc, vd, ve] == [vb] + [vc, vd, ve];
    ParseOne(read, a, [b, c, d, e], va, [vb, vc, vd, ve]);
    assert [a, b, c, d, e] == [a] + [b, c, d, e] && [va, vb, vc, vd, ve] == [va] + [vb, vc, vd, ve];
  }

  lemma ParseOne(read: string -> Option<Number>, piece: string, rest: seq<string>, v: real, vs: seq<real>)
    requires read(piece) == Some(Finite(v)) && ParseAll(read, rest) == Ok(vs)
    ensures ParseAll(read, [piece] + rest) == Ok([v] + vs)
  {
    var ps := [piece] + rest;
    assert ps[0] == piece && ps[1..] == rest;
  }

  /** Each piece of the default schedule reads as its integer value. */
  lemma DefaultPieces(ip: Interpreter)
    ensures FloatOfText(ip, "200") == Some(Finite(200.0)) && FloatOfText(ip, "100") == Some(Finite(100.0))
    ensures FloatOfText(ip, "20") == Some(Finite(20.0)) && FloatOfText(ip, "5") == Some(Finite(5.0))
    ensures FloatOfText(ip, "0") == Some(Finite(0.0))
  {
    assert NatToString(200) == "200" && NatToString(100) == "100" && NatToString(20) == "20";
    assert NatToString(5) == "5" && NatToString(0) == "0";
    IntToStringIsPlainDecimal(200);
    IntToStringIsPlainDecimal(100);
    IntToStringIsPlainDecimal(20);
    IntToStringIsPlainDecimal(5);
    IntToStringIsPlainDecimal(0);
  }

  lemma SplitDefault()
    ensures Split(DefaultErrors, ',') == ["200", "100", "20", "5", "0"]
  {
    var parts := ["200", "100", "20", "5", "0"];
    assert Join(parts, ",") == DefaultErrors by {
      assert Join(parts[4..], ",") == "0";
      assert Join(parts[3..], ",") == "5,0";
      assert Join(parts[2..], ",") == "20,5,0";
      assert Join(parts[1..], ",") == "100,20,5,0";
    }
    JoinSplit(parts, ',');
  }

  /** `center[k] += center_offset[k]` for x and y, and z when the offset has one; IndexError
    * when the offset has a single entry. An empty offset leaves the centre as it is. */
  function ApplyCenterOffset(center: (real, real, real), offset: seq<real>): (r: Result<(real, real, real)>)
    ensures r.Err? <==> |offset| == 1
    ensures r.Err? ==> r.error == IndexError
    ensures |offset| == 0 ==> r == Ok(center)
    ensures |offset| >= 2 ==> (r.Ok? && r.value.0 - center.0 == offset[0] && r.value.1 - center.1 == offset[1] &&
      r.value.2 - center.2 == (if |offset| > 2 then offset[2] else 0.0))
  {
    if |offset| == 0 then Ok(center)
    else if |offset| < 2 then Err(IndexError)
    else Ok((center.0 + offset[0], center.1 + offset[1], center.2 + if |offset| > 2 then offset[2] else 0.0))
  }

  /** `region(bbox)`: the corners converted to WGS84, in radians, latitude first, then the
    * vertical span. */
  function Region(h: Hosts, crs: string, bbox: BBox, minZ: real, maxZ: real): (r: seq<real>)
    ensures |r| == 6 && r[4] == minZ && r[5] == maxZ
  {
    var lb := h.toWgs84((bbox.minX, bbox.minY), crs);
    var rt := h.toWgs84((bbox.maxX, bbox.maxY), crs);
    [h.rad(lb.1), h.rad(lb.0), h.rad(rt.1), h.rad(rt.0), minZ, maxZ]
  }

  /** Everything `create_tileset` computes before calling `quad` on the root. */
  datatype Plan = Plan(builder: Builder, root: QuadParams, transform: Matrix4)

  function Prepare(info: Option<Info>, config: Config, h: Hosts): (r: Result<Plan>)
    ensures info.None? ==> r == Err(FileNotFoundError)
    ensures r.Ok? ==> info.Some? && |info.value.size| >= 3 && |info.value.center| != 1
    ensures r.Ok? ==> (r.value.builder.attached == h.fileExists && r.value.builder.depth == info.value.depth &&
      r.value.root.level == 0 && r.value.root.x == 0 && r.value.root.y == 0 && r.value.root.uri == "0_0_0.glb")
    ensures r.Ok? ==> r.value.builder.width == info.value.size[0] && r.value.builder.height == info.value.size[1]
    ensures r.Ok? ==> ParseErrors(h.ip, Default(config.geometricErrors, DefaultErrors)) == Ok(r.value.builder.errors)
  {
    if info.None? then Err(FileNotFoundError)
    else
      var crs := Default(config.crs, DefaultCrs);
      var placed := ApplyCenterOffset(h.fromWgs84((Lat0, Lon0, 0.0), crs), info.value.center);
      if placed.Err? then Err(placed.error)
      else
        var center := placed.value;
        var errors := ParseErrors(h.ip, Default(config.geometricErrors, DefaultErrors));
        if errors.Err? then Err(errors.error)
        else
          var coords := h.toWgs84((center.0, center.1), crs);
          var z := center.2 + Default(config.zOffset, 0.0);
          var size := info.value.size;
          if |size| < 3 then Err(IndexError)
          else
            var width := size[0];
            var height := size[1];
            var minZ := z - size[2] / 2.0;
            var maxZ := z + size[2] / 2.0;
            var builder := Builder(errors.value, info.value.depth, width, height, h.fileExists,
              (p: QuadParams) => Volume(Some(Region(h, crs, p.bbox, minZ, maxZ)), None),
              (bb: BBox) => Volume(Some(Region(h, crs, bb, minZ, maxZ)), None));
            var bbox := BBox(center.0 - width / 2.0, center.1 - height / 2.0, center.0 + width / 2.0, center.1 + height / 2.0);
            var transform := EcefTransform(h.geodetic(coords.1, coords.0, z), 1.0);
            Ok(Plan(builder, QuadParams(bbox, 0, 0, 0, "0_0_0.glb"), transform))
  }

  function Default<T>(v: Option<T>, d: T): T
  {
    if v.Some? then v.value else d
  }

  /** `create_tileset`: version 1.1 and the root quad with the transform. */
  function CreateTileset(info: Option<Info>, config: Config, h: Hosts): Result<Tileset>
  {
    var plan := Prepare(info, config, h);
    if plan.Err? then Err(plan.error)
    else
      var root := QuadSpec(plan.value.builder, plan.value.root, Some(plan.value.transform));
      if root.Err? then Err(root.error) else Ok(Tileset("1.1", root.value))
  }

  /** The root uri `0_0_0.glb` is never looked up: whatever the file probe says, the root tile
    * (the only child of the outer node when the depth is positive) has it as its content; the
    * outer node carries the transform and the schedule's first entry. */
  lemma RootNeverChecked(info: Option<Info>, config: Config, h: Hosts)
    requires CreateTileset(info, config, h).Ok?
    ensures var plan := Prepare(info, config, h).value;
      var root := CreateTileset(info, config, h).value.root;
      if plan.builder.depth > 0 then
        root.transform == Some(plan.transform) && root.geometricError == plan.builder.errors[0] &&
        root.children.Present? && |root.children.tiles| == 1 &&
        root.children.tiles[0].content == Some("0_0_0.glb")
      else root.content == Some("0_0_0.glb") && root.transform.None?
  {
    var plan := Prepare(info, config, h).value;
    TransformWrapsRoot(plan.builder, plan.root, plan.transform);
    QuadShape(plan.builder, plan.root, QuadSpec(plan.builder, plan.root, None).value);
  }

  /** Below the root, every tile is well formed: the schedule's entry one level down, REPLACE,
    * children exactly above the depth, and every child's file exists. */
  lemma MeshTreeWellFormed(info: Option<Info>, config: Config, h: Hosts)
    requires CreateTileset(info, config, h).Ok?
    ensures var plan := Prepare(info, config, h).value;
      var root := CreateTileset(info, config, h).value.root;
      if plan.builder.depth > 0 then
        root.children.Present? && |root.children.tiles| == 1 && WellFormed(plan.builder, root.children.tiles[0], 0)
      else WellFormed(plan.builder, root, 0)
  {
    var plan := Prepare(info, config, h).value;
    TransformWrapsRoot(plan.builder, plan.root, plan.transform);
    QuadWellFormed(plan.builder, plan.root, QuadSpec(plan.builder, plan.root, None).value);
  }

  /** With a non-increasing schedule (the default one is), errors never grow down the tileset. */
  lemma MeshMonotone(info: Option<Info>, config: Config, h: Hosts)
    requires CreateTileset(info, config, h).Ok?
    requires NonIncreasing(Prepare(info, config, h).value.builder.errors)
    ensures Monotone(CreateTileset(info, config, h).value.root)
  {
    var plan := Prepare(info, config, h).value;
    RootMonotone(plan.builder, plan.root, plan.transform);
  }

  /** A schedule shorter than two entries cannot serve the root: IndexError. */
  lemma ShortScheduleRejected(info: Option<Info>, config: Config, h: Hosts)
    requires Prepare(info, config, h).Ok? && |Prepare(info, config, h).value.builder.errors| < 2
    ensures CreateTileset(info, config, h) == Err(IndexError)
  {
    var plan := Prepare(info, config, h).value;
    ShortScheduleFails(plan.builder, plan.root, Some(plan.transform));
  }

  /** With no centre offset and a `cs2cs` pair that round-trips, the transform is computed for
    * latitude `lon0` and longitude `lat0`: the fixed point is passed to the x, y (longitude
    * first) projection latitude first. */
  lemma DefaultCenterAxes(info: Option<Info>, config: Config, h: Hosts)
    requires Prepare(info, config, h).Ok? && info.value.center == [] && config.zOffset.None?
    requires var crs := Default(config.crs, DefaultCrs);
      var c := h.fromWgs84((Lat0, Lon0, 0.0), crs);
      h.toWgs84((c.0, c.1), crs) == (Lat0, Lon0, c.2)
    ensures var c := h.fromWgs84((Lat0, Lon0, 0.0), Default(config.crs, DefaultCrs));
      Prepare(info, config, h).value.transform == EcefTransform(h.geodetic(Lon0, Lat0, c.2), 1.0)
  {
  }
}
