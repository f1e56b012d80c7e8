/** The backend worker's conversion of a Polygon geometry into a POLYHEDRALSURFACE Z and its
  * WKT text. Where the frontend version returns nothing, Python raises: IndexError for a
  * position without height, a polygon without rings, an incomplete index triple or a missing
  * upper ring; ZeroDivisionError for an empty outer ring; ValueError when the earcut helper
  * prints no indices at all. */
module PyPolyhedron {
  import opened Wrappers
  import opened Numbers
  import opened Text
  import opened Lists
  import opened GeoJson
  import opened PyValues
  import opened Surfaces
  import TsPolyhedron

  /** A failed step raising `error`. */
  function OrRaise<T>(o: Option<T>, error: string): (r: Result<T>)
    ensures r.Ok? <==> o.Some?
    ensures r.Ok? ==> r.value == o.value
    ensures r.Err? ==> r.error == error
  {
    if o.Some? then Ok(o.value) else Err(error)
  }

  /** Python truthiness of an optional number: None and 0 are falsy. */
  predicate Truthy(z: Option<real>)
  {
    z.Some? && z.value != 0.0
  }

  // ---------------------------------------------------------------------------
  // Parsing

  /** `parse_coords(coords, z, translate_z)`: `coords[2]` is read first, so a position without
    * height raises; a truthy `z` replaces the height, so a limit of 0 is ignored; a falsy
    * `translate_z` counts as 0. */
  function ParseCoords(coords: Position, z: Option<real>, translateZ: Option<real>): (r: Result<Vec3>)
    ensures r.Ok? <==> |coords| >= 3
    ensures r.Ok? ==> r.value.x == coords[0] && r.value.y == coords[1]
  {
    if |coords| < 3 then Err(IndexError)
    else
      var height := if Truthy(z) then z.value else coords[2];
      var t := if translateZ.Some? then translateZ.value else 0.0;
      Ok(Vec3(coords[0], coords[1], height + t))
  }

  /** What `parse_ring` returns: every position parsed, in order, or IndexError when one of
    * them has no height. */
  function ParsedRing(ring: seq<Position>, z: Option<real>, translateZ: Option<real>): (r: Result<Ring>)
    ensures r.Ok? <==> forall i :: 0 <= i < |ring| ==> |ring[i]| >= 3
    ensures r.Err? ==> r.error == IndexError
    ensures r.Ok? ==> |r.value| == |ring|
    ensures r.Ok? ==> forall i :: 0 <= i < |ring| ==> ParseCoords(ring[i], z, translateZ) == Ok(r.value[i])
  {
    if forall i :: 0 <= i < |ring| ==> |ring[i]| >= 3 then
      Ok(seq(|ring|, i requires 0 <= i < |ring| => ParseCoords(ring[i], z, translateZ).value))
    else Err(IndexError)
  }

  /** `parse_ring(ring, z, translate_z)`, appending one parsed position per step. */
  method ParseRing(ring: seq<Position>, z: Option<real>, translateZ: Option<real>) returns (r: Result<Ring>)
    ensures r == ParsedRing(ring, z, translateZ)
  {
    var parsed: Ring := [];
    for i := 0 to |ring|
      invariant |parsed| == i
      invariant forall k :: 0 <= k < i ==> ParseCoords(ring[k], z, translateZ) == Ok(parsed[k])
    {
      var c := ParseCoords(ring[i], z, translateZ);
      if c.Err? {
        return Err(IndexError);
      }
      parsed := parsed + [c.value];
    }
    assert ParsedRing(ring, z, translateZ).value == parsed;
    return Ok(parsed);
  }

  /** What the ring loops of `polygon_to_polyhedral_surface` build: one parsed ring per ring. */
  function ParsedRings(rings: seq<seq<Position>>, z: Option<real>, translateZ: Option<real>): (r: Result<seq<Ring>>)
    ensures r.Ok? <==> forall i :: 0 <= i < |rings| ==> ParsedRing(rings[i], z, translateZ).Ok?
    ensures r.Err? ==> r.error == IndexError
    ensures r.Ok? ==> |r.value| == |rings|
    ensures r.Ok? ==> forall i :: 0 <= i < |rings| ==> ParsedRing(rings[i], z, translateZ) == Ok(r.value[i])
  {
    if forall i :: 0 <= i < |rings| ==> ParsedRing(rings[i], z, translateZ).Ok? then
      Ok(seq(|rings|, i requires 0 <= i < |rings| => ParsedRing(rings[i], z, translateZ).value))
    else Err(IndexError)
  }

  /** `for ring in geometry['coordinates']: lower.append(parse_ring(ring, ...))` */
  method ParseRings(rings: seq<seq<Position>>, z: Option<real>, translateZ: Option<real>) returns (r: Result<seq<Ring>>)
    ensures r == ParsedRings(rings, z, translateZ)
  {
    var parsed: seq<Ring> := [];
    for i := 0 to |rings|
      invariant |parsed| == i
      invariant forall k :: 0 <= k < i ==> ParsedRing(rings[k], z, translateZ) == Ok(parsed[k])
    {
      var ring := ParseRing(rings[i], z, translateZ);
      if ring.Err? {
        return Err(IndexError);
      }
      parsed := parsed + [ring.value];
    }
    assert ParsedRings(rings, z, translateZ).value == parsed;
    return Ok(parsed);
  }

  /** Two rings parsed from the same positions with different limits differ only in height:
    * either both fail or both succeed with the same length. */
  lemma ParsedRingsSameShape(rings: seq<seq<Position>>, z1: Option<real>, z2: Option<real>, translateZ: Option<real>)
    ensures ParsedRings(rings, z1, translateZ).Ok? <==> ParsedRings(rings, z2, translateZ).Ok?
    ensures ParsedRings(rings, z1, translateZ).Ok? ==>
      forall i :: 0 <= i < |rings| ==> |ParsedRings(rings, z1, translateZ).value[i]| == |ParsedRings(rings, z2, translateZ).value[i]|
  {
    if ParsedRings(rings, z1, translateZ).Ok? {
      forall i | 0 <= i < |rings|
        ensures ParsedRing(rings[i], z2, translateZ).Ok?
      {
        assert ParsedRing(rings[i], z1, translateZ).Ok?;
      }
    }
  }

  /** `sum_until_index(arr, index)`: the entries before `index`, collected by one loop and
    * added up by a second. */
  method SumUntilIndex(arr: seq<real>, index: int) returns (sum: real)
    ensures sum == Sum(arr[..if index < 0 then 0 else if index > |arr| then |arr| else index])
  {
    var n := if index < 0 then 0 else if index > |arr| then |arr| else index;
    var filtered: seq<real> := [];
    for idx := 0 to |arr|
      invariant filtered == arr[..if idx < n then idx else n]
    {
      if idx < index {
        assert arr[..idx + 1] == arr[..idx] + [arr[idx]];
        filtered := filtered + [arr[idx]];
      }
    }
    sum := 0.0;
    for j := 0 to |filtered|
      invariant sum == Sum(filtered[..j])
    {
      assert filtered[..j + 1][..j] == filtered[..j];
      sum := sum + filtered[j];
    }
    assert filtered[..|filtered|] == filtered;
  }

  // ---------------------------------------------------------------------------
  // Triangulation

  /** What the earcut helper script prints: the indices joined by commas. It prints nothing
    * when reading the dimension from `coordinates[0][0]` fails, that is without rings or with
    * an empty outer ring. */
  function EarcutOutput(earcut: Earcut, coordinates: seq<Ring>): string
  {
    if |coordinates| == 0 || |coordinates[0]| == 0 then ""
    else Join(IndexTexts(earcut(Flatten(coordinates), HoleStarts(coordinates))), ",")
  }

  /** `int(piece)` on a piece of that output, which holds digits only: a non-empty run of digits
    * reads as its value, and anything else, the empty piece included, is a ValueError. */
  function IntOfText(s: string): (r: Result<nat>)
    ensures r.Ok? <==> |s| >= 1 && AllDigits(s)
  {
    if |s| >= 1 && AllDigits(s) then Ok(DigitsValue(s)) else Err(ValueError)
  }

  /** The text of each index. */
  function IndexTexts(indices: seq<nat>): (ts: seq<string>)
    ensures |ts| == |indices|
    ensures forall i :: 0 <= i < |indices| ==> ts[i] == NatToString(indices[i])
  {
    seq(|indices|, i requires 0 <= i < |indices| => NatToString(indices[i]))
  }

  /** `list(map(int, text.split(',')))` */
  function ReadIndices(text: string): Result<seq<nat>>
  {
    var pieces := Split(text, ',');
    if forall i :: 0 <= i < |pieces| ==> IntOfText(pieces[i]).Ok? then
      Ok(seq(|pieces|, i requires 0 <= i < |pieces| => IntOfText(pieces[i]).value))
    else Err(ValueError)
  }

  /** `earcut_js(coordinates)`: the printed text read back as integers. */
  function EarcutJs(earcut: Earcut, coordinates: seq<Ring>): Result<seq<nat>>
  {
    ReadIndices(EarcutOutput(earcut, coordinates))
  }

  /** Nothing printed reads as `int('')`, a ValueError. */
  lemma EmptyTextIsValueError()
    ensures ReadIndices("") == Err(ValueError)
  {
    var pieces := Split("", ',');
    assert pieces == [""];
    assert !IntOfText(pieces[0]).Ok?;
  }

  /** Indices printed with commas read back as themselves. */
  lemma ReadPrintedIndices(indices: seq<nat>)
    requires |indices| > 0
    ensures ReadIndices(Join(IndexTexts(indices), ",")) == Ok(indices)
  {
    var texts := IndexTexts(indices);
    forall i | 0 <= i < |texts|
      ensures ',' !in texts[i]
    {
      assert AllDigits(texts[i]);
    }
    JoinSplit(texts, ',');
    forall i | 0 <= i < |texts|
      ensures IntOfText(texts[i]) == Ok(indices[i])
    {
      NatToStringValue(indices[i]);
    }
    assert ReadIndices(Join(texts, ",")).value == indices;
  }

  /** The text round trip through the helper process hands earcut's indices back unchanged,
    * except that no indices at all (and a failing helper) read as `int('')`, a ValueError. */
  lemma EarcutJsRoundTrip(earcut: Earcut, coordinates: seq<Ring>)
    ensures EarcutJs(earcut, coordinates).Ok?
        <==> (|coordinates| > 0 && |coordinates[0]| > 0 && earcut(Flatten(coordinates), HoleStarts(coordinates)) != [])
    ensures EarcutJs(earcut, coordinates).Ok? ==>
      EarcutJs(earcut, coordinates).value == earcut(Flatten(coordinates), HoleStarts(coordinates))
    ensures EarcutJs(earcut, coordinates).Err? ==> EarcutJs(earcut, coordinates).error == ValueError
  {
    if |coordinates| == 0 || |coordinates[0]| == 0 {
      EmptyTextIsValueError();
    } else {
      var indices := earcut(Flatten(coordinates), HoleStarts(coordinates));
      assert EarcutOutput(earcut, coordinates) == Join(IndexTexts(indices), ",");
      if |indices| == 0 {
        EmptyTextIsValueError();
      } else {
        ReadPrintedIndices(indices);
      }
    }
  }

  /** What `triangulate(coordinates, reverse)` returns: the earcut failure first, then
    * IndexError for an incomplete triple or an index past the vertices. */
  function TriangulateSpec(earcut: Earcut, toEcef: ToEcef, coordinates: seq<Ring>, reverse: bool): Result<seq<Face>>
  {
    var indices := EarcutJs(earcut, coordinates);
    if indices.Err? then Err(ValueError)
    else OrRaise(Triangles(toEcef, Flatten(coordinates), indices.value, reverse), IndexError)
  }

  /** The first loop of `triangulate`: every position of every ring, ring after ring. */
  method GatherVertices(coordinates: seq<Ring>) returns (vertices: seq<Vec3>)
    ensures vertices == Flatten(coordinates)
  {
    vertices := [];
    for j := 0 to |coordinates|
      invariant vertices == Flatten(coordinates[..j])
    {
      var rings := coordinates[j];
      ghost var before := vertices;
      for k := 0 to |rings|
        invariant vertices == before + rings[..k]
      {
        assert rings[..k + 1] == rings[..k] + [rings[k]];
        vertices := vertices + [rings[k]];
      }
      assert coordinates[..j + 1] == coordinates[..j] + [rings];
      assert rings[..|rings|] == rings;
      FlattenSnoc(coordinates[..j], rings);
    }
    assert coordinates[..|coordinates|] == coordinates;
  }

  /** The second loop of `triangulate`: `range(len(indices))` with `if i % 3 == 0`, so only
    * every third position does anything; it raises IndexError on an incomplete triple or an
    * index past the vertices. */
  method TriangleLoop(toEcef: ToEcef, vertices: seq<Vec3>, indices: seq<nat>, reverse: bool) returns (r: Result<seq<Face>>)
    ensures r == OrRaise(Triangles(toEcef, vertices, indices, reverse), IndexError)
  {
    var polyhedron: seq<Face> := [];
    var i := 0;
    while i < |indices|
      invariant i == 3 * |polyhedron| && i <= |indices|
      invariant forall k :: 0 <= k < i ==> indices[k] < |vertices|
      invariant forall t :: 0 <= t < |polyhedron| ==> polyhedron[t] == TriangleFace(toEcef, vertices, indices, t, reverse)
    {
      if i + 2 >= |indices| || indices[i] >= |vertices| || indices[i + 1] >= |vertices| || indices[i + 2] >= |vertices| {
        assert !ValidIndices(indices, |vertices|);
        return Err(IndexError);
      }
      var a := toEcef(vertices[indices[i]]);
      var b := toEcef(vertices[indices[i + (if reverse then 2 else 1)]]);
      var c := toEcef(vertices[indices[i + (if reverse then 1 else 2)]]);
      polyhedron := polyhedron + [[a, b, c, a]];
      i := i + 3;
    }
    assert ValidIndices(indices, |vertices|);
    assert |indices| / 3 == |polyhedron|;
    assert Triangles(toEcef, vertices, indices, reverse).value == polyhedron;
    return Ok(polyhedron);
  }

  /** `triangulate(coordinates, reverse)`: earcut through the helper process, the vertices
    * gathered ring by ring, then one face per index triple. */
  method Triangulate(earcut: Earcut, toEcef: ToEcef, coordinates: seq<Ring>, reverse: bool) returns (r: Result<seq<Face>>)
    ensures r == TriangulateSpec(earcut, toEcef, coordinates, reverse)
  {
    var indices := EarcutJs(earcut, coordinates);
    if indices.Err? {
      return Err(ValueError);
    }
    var vertices := GatherVertices(coordinates);
    r := TriangleLoop(toEcef, vertices, indices.value, reverse);
  }

  // ---------------------------------------------------------------------------
  // Walls

  /** `plane_to_wall(lower_ring, upper_ring)`: the test `if lower_ring[i + 1]` always holds for
    * a parsed position, so every consecutive pair gets its two faces; an upper ring shorter
    * than the lower one raises. */
  method PlaneToWall(toEcef: ToEcef, lowerRing: Ring, upperRing: Ring) returns (r: Result<seq<Face>>)
    ensures r == OrRaise(WallFaces(toEcef, lowerRing, upperRing), IndexError)
  {
    var polyhedron: seq<Face> := [];
    var i := 0;
    while i < |lowerRing| - 1
      invariant 0 <= i <= (if |lowerRing| == 0 then 0 else |lowerRing| - 1)
      invariant i > 0 ==> i < |upperRing|
      invariant |polyhedron| == 2 * i
      invariant forall k :: 0 <= k < 2 * i ==> polyhedron[k] == WallFace(toEcef, lowerRing, upperRing, k)
    {
      if i + 1 >= |upperRing| {
        return Err(IndexError);
      }
      var bl := toEcef(lowerRing[i]);
      var br := toEcef(lowerRing[i + 1]);
      var tl := toEcef(upperRing[i]);
      var tr := toEcef(upperRing[i + 1]);
      polyhedron := polyhedron + [[bl, tl, br, bl]];
      polyhedron := polyhedron + [[br, tl, tr, br]];
      i := i + 1;
    }
    if |lowerRing| < 2 {
      return Ok([]);
    }
    assert WallFaces(toEcef, lowerRing, upperRing).value == polyhedron;
    return Ok(polyhedron);
  }

  /** What `generate_walls(lower, upper)` returns: the walls of ring `i` of both copies, ring
    * after ring; IndexError when `upper` has fewer rings or one of its rings runs short. */
  function WallsSpec(toEcef: ToEcef, lower: seq<Ring>, upper: seq<Ring>): Result<seq<Face>>
  {
    if |upper| < |lower| then Err(IndexError)
    else OrRaise(RingWalls(toEcef, lower, upper), IndexError)
  }

  /** `generate_walls(lower, upper)` */
  method GenerateWalls(toEcef: ToEcef, lower: seq<Ring>, upper: seq<Ring>) returns (r: Result<seq<Face>>)
    ensures r == WallsSpec(toEcef, lower, upper)
  {
    var walls: seq<Face> := [];
    for idx := 0 to |lower|
      invariant RingWalls(toEcef, lower[..idx], upper) == Some(walls)
      invariant idx <= |upper|
    {
      if idx >= |upper| {
        return Err(IndexError);
      }
      var w := PlaneToWall(toEcef, lower[idx], upper[idx]);
      if w.Err? {
        RingWallsSome(toEcef, lower, upper);
        return Err(IndexError);
      }
      assert lower[..idx + 1][..idx] == lower[..idx];
      walls := walls + w.value;
    }
    assert lower[..|lower|] == lower;
    return Ok(walls);
  }

  /** What `to_polyhedral_surface(lower, upper, remove_bottom_surface)` returns. Without an
    * upper set (None or empty) it is the lower surface alone; otherwise the upper surface, the
    * walls and, unless removed, the lower surface turned over, each step raising in turn. */
  function SurfaceSpec(earcut: Earcut, toEcef: ToEcef, lower: seq<Ring>, upper: Option<seq<Ring>>,
                       removeBottomSurface: bool): Result<seq<Face>>
  {
    if upper.None? || upper.value == [] then TriangulateSpec(earcut, toEcef, lower, false)
    else
      var top := TriangulateSpec(earcut, toEcef, upper.value, false);
      if top.Err? then top
      else
        var walls := WallsSpec(toEcef, lower, upper.value);
        if walls.Err? then walls
        else if removeBottomSurface then Ok(top.value + walls.value)
        else
          var bottom := TriangulateSpec(earcut, toEcef, lower, true);
          if bottom.Err? then bottom else Ok(top.value + walls.value + bottom.value)
  }

  /** `to_polyhedral_surface(lower, upper, remove_bottom_surface)` */
  method ToPolyhedralSurface(earcut: Earcut, toEcef: ToEcef, lower: seq<Ring>, upper: Option<seq<Ring>>,
                             removeBottomSurface: bool) returns (r: Result<seq<Face>>)
    ensures r == SurfaceSpec(earcut, toEcef, lower, upper, removeBottomSurface)
  {
    if upper.None? || upper.value == [] {
      r := Triangulate(earcut, toEcef, lower, false);
      return;
    }
    var surface: seq<Face> := [];
    var top := Triangulate(earcut, toEcef, upper.value, false);
    if top.Err? {
      return top;
    }
    surface := surface + top.value;
    assert surface == top.value;
    var walls := GenerateWalls(toEcef, lower, upper.value);
    if walls.Err? {
      return walls;
    }
    surface := surface + walls.value;
    if !removeBottomSurface {
      var bottom := Triangulate(earcut, toEcef, lower, true);
      if bottom.Err? {
        return bottom;
      }
      surface := surface + bottom.value;
      assert surface == top.value + walls.value + bottom.value;
    }
    return Ok(surface);
  }

  // ---------------------------------------------------------------------------
  // Polygons

  /** The height of every position of a ring. */
  function Heights(ring: Ring): (zs: seq<real>)
    ensures |zs| == |ring|
  {
    seq(|ring|, i requires 0 <= i < |ring| => ring[i].z)
  }

  /** The average height of a ring, `sum / len`; an empty ring divides by zero. */
  function MeanHeight(ring: Ring): (r: Result<real>)
    ensures r.Ok? <==> |ring| > 0
    ensures r.Err? ==> r.error == ZeroDivisionError
  {
    if |ring| == 0 then Err(ZeroDivisionError) else Ok(Sum(Heights(ring)) / |ring| as real)
  }

  /** The averaging loop of `polygon_to_polyhedral_surface`. */
  method AverageZ(ring: Ring) returns (r: Result<real>)
    ensures r == MeanHeight(ring)
  {
    var average := 0.0;
    for i := 0 to |ring|
      invariant average == Sum(Heights(ring)[..i])
    {
      assert Heights(ring)[..i + 1][..i] == Heights(ring)[..i];
      average := average + ring[i].z;
    }
    assert Heights(ring)[..|ring|] == Heights(ring);
    if |ring| == 0 {
      return Err(ZeroDivisionError);
    }
    return Ok(average / |ring| as real);
  }

  /** The backend's average is the frontend's mean, without its NaN for an empty ring. */
  lemma MeanHeightIsMeanZ(ring: Ring)
    requires |ring| > 0
    ensures Finite(MeanHeight(ring).value) == MeanZ(ring)
  {
    assert Heights(ring) == seq(|ring|, i requires 0 <= i < |ring| => ring[i].z);
  }

  /** The `options` dict of `polygon_to_polyhedral_surface`. */
  datatype PolygonOptions = PolygonOptions(
    lowerLimit: Option<real>,
    upperLimit: Option<real>,
    translateZ: Option<real>,
    removeBottomSurface: bool)

  /** What `polygon_to_polyhedral_surface(geometry, options)` returns. Without limits the
    * surface is flat. Otherwise the copy whose outer ring has the greater average height goes
    * on top; a tie keeps the lower-limit copy below. */
  function PolygonSpec(earcut: Earcut, toEcef: ToEcef, rings: seq<seq<Position>>, o: PolygonOptions): Result<seq<Face>>
  {
    var lower := ParsedRings(rings, o.lowerLimit, o.translateZ);
    if lower.Err? then Err(IndexError)
    else if o.lowerLimit.None? && o.upperLimit.None? then
      SurfaceSpec(earcut, toEcef, lower.value, None, o.removeBottomSurface)
    else
      ParsedRingsSameShape(rings, o.lowerLimit, o.upperLimit, o.translateZ);
      var upper := ParsedRings(rings, o.upperLimit, o.translateZ).value;
      if |rings| == 0 then Err(IndexError)
      else if |lower.value[0]| == 0 then Err(ZeroDivisionError)
      else if MeanHeight(lower.value[0]).value > MeanHeight(upper[0]).value then
        SurfaceSpec(earcut, toEcef, upper, Some(lower.value), o.removeBottomSurface)
      else
        SurfaceSpec(earcut, toEcef, lower.value, Some(upper), o.removeBottomSurface)
  }

  /** `polygon_to_polyhedral_surface(geometry, options)` */
  method PolygonToPolyhedralSurface(earcut: Earcut, toEcef: ToEcef, rings: seq<seq<Position>>, o: PolygonOptions)
    returns (r: Result<seq<Face>>)
    ensures r == PolygonSpec(earcut, toEcef, rings, o)
  {
    var lower := ParseRings(rings, o.lowerLimit, o.translateZ);
    if lower.Err? {
      return Err(IndexError);
    }
    if o.lowerLimit.None? && o.upperLimit.None? {
      r := ToPolyhedralSurface(earcut, toEcef, lower.value, None, o.removeBottomSurface);
      return;
    }
    ParsedRingsSameShape(rings, o.lowerLimit, o.upperLimit, o.translateZ);
    var upper := ParseRings(rings, o.upperLimit, o.translateZ);
    if |rings| == 0 {
      return Err(IndexError);
    }
    var averageLower := AverageZ(lower.value[0]);
    if averageLower.Err? {
      return Err(ZeroDivisionError);
    }
    var averageUpper := AverageZ(upper.value[0]);
    if averageLower.value > averageUpper.value {
      r := ToPolyhedralSurface(earcut, toEcef, upper.value, Some(lower.value), o.removeBottomSurface);
    } else {
      r := ToPolyhedralSurface(earcut, toEcef, lower.value, Some(upper.value), o.removeBottomSurface);
    }
  }

  /** What `geometry_to_polyhedral_surface(geometry, options)` returns: only a Polygon has a
    * surface; any other geometry gives no faces. */
  function GeometrySpec(earcut: Earcut, toEcef: ToEcef, g: Geometry, o: PolygonOptions): Result<seq<Face>>
  {
    if g.Polygon? then PolygonSpec(earcut, toEcef, g.rings, o) else Ok([])
  }

  /** `geometry_to_polyhedral_surface(geometry, options)` */
  method GeometryToPolyhedralSurface(earcut: Earcut, toEcef: ToEcef, g: Geometry, o: PolygonOptions)
    returns (r: Result<seq<Face>>)
    ensures r == GeometrySpec(earcut, toEcef, g, o)
  {
    if g.Polygon? {
      r := PolygonToPolyhedralSurface(earcut, toEcef, g.rings, o);
    } else {
      r := Ok([]);
    }
  }

  // ---------------------------------------------------------------------------
  // WKT

  /** `" ".join(map(str, vertex))` */
  function VertexText(ip: Interpreter, v: Vec3): string
  {
    Join([FloatToString(ip, Finite(v.x)), FloatToString(ip, Finite(v.y)), FloatToString(ip, Finite(v.z))], " ")
  }

  /** One face as a polygon with a single ring: `((x y z, x y z, ...))`. */
  function FaceText(ip: Interpreter, face: Face): string
  {
    "((" + Join(seq(|face|, i requires 0 <= i < |face| => VertexText(ip, face[i])), ", ") + "))"
  }

  function FaceTexts(ip: Interpreter, polyhedron: seq<Face>): (ts: seq<string>)
    ensures |ts| == |polyhedron|
  {
    seq(|polyhedron|, i requires 0 <= i < |polyhedron| => FaceText(ip, polyhedron[i]))
  }

  /** The tagged text of a polyhedral surface with its faces separated by commas. */
  function Wkt(ip: Interpreter, polyhedron: seq<Face>): string
  {
    "POLYHEDRALSURFACE Z(" + Join(FaceTexts(ip, polyhedron), ",") + ")"
  }

  /** The text of a surface without faces, which the import loop skips. */
  const EmptySurface: string := "POLYHEDRALSURFACE Z()"

  /** `polyhedral_to_wkt(polyhedron)`, with its nested loops over faces and vertices. */
  method PolyhedralToWkt(ip: Interpreter, polyhedron: seq<Face>) returns (wkt: string)
    ensures wkt == Wkt(ip, polyhedron)
  {
    var triangles: seq<string> := [];
    for t := 0 to |polyhedron|
      invariant triangles == FaceTexts(ip, polyhedron[..t])
    {
      var text := TriangleText(ip, polyhedron[t]);
      FaceTextsSnoc(ip, polyhedron, t);
      triangles := triangles + [text];
    }
    assert polyhedron[..|polyhedron|] == polyhedron;
    wkt := "POLYHEDRALSURFACE Z(" + Join(triangles, ",") + ")";
  }

  /** The inner loop of `polyhedral_to_wkt`: one face's vertices, joined and wrapped. */
  method TriangleText(ip: Interpreter, triangle: Face) returns (text: string)
    ensures text == FaceText(ip, triangle)
  {
    var vertices: seq<string> := [];
    for k := 0 to |triangle|
      invariant |vertices| == k && forall i :: 0 <= i < k ==> vertices[i] == VertexText(ip, triangle[i])
    {
      vertices := vertices + [VertexText(ip, triangle[k])];
    }
    assert vertices == seq(|triangle|, i requires 0 <= i < |triangle| => VertexText(ip, triangle[i]));
    text := "((" + Join(vertices, ", ") + "))";
  }

  lemma FaceTextsSnoc(ip: Interpreter, polyhedron: seq<Face>, t: nat)
    requires t < |polyhedron|
    ensures FaceTexts(ip, polyhedron[..t + 1]) == FaceTexts(ip, polyhedron[..t]) + [FaceText(ip, polyhedron[t])]
  {
  }

  /** The empty text is written exactly for a surface without faces. */
  lemma EmptyWktIffNoFaces(ip: Interpreter, polyhedron: seq<Face>)
    ensures Wkt(ip, polyhedron) == EmptySurface <==> polyhedron == []
  {
    if polyhedron != [] {
      var texts := FaceTexts(ip, polyhedron);
      JoinStartsWithFirst(texts, ",");
      assert |Join(texts, ",")| >= 4;
      assert |Wkt(ip, polyhedron)| > |EmptySurface|;
    }
  }

  // ---------------------------------------------------------------------------
  // Properties

  /** A limit of 0 is falsy and ignored: the position keeps its own height, where the
    * frontend would place it at 0. */
  lemma ZeroLimitIsIgnored(coords: Position, translateZ: Option<real>)
    requires |coords| >= 3
    ensures ParseCoords(coords, Some(0.0), translateZ) == ParseCoords(coords, None, translateZ)
    ensures ParseCoords(coords, Some(0.0), translateZ).value.z
         == coords[2] + (if translateZ.Some? then translateZ.value else 0.0)
    ensures TsPolyhedron.ParseCoords(coords, Some(0.0), translateZ).z
         == (if translateZ.Some? then translateZ.value else 0.0)
  {
  }

  /** A ring parsed with a nonzero limit lies level at that limit, shifted by the translation. */
  lemma ParsedRingIsLevel(ring: seq<Position>, z: real, translateZ: Option<real>)
    requires z != 0.0
    requires ParsedRing(ring, Some(z), translateZ).Ok?
    ensures forall i :: 0 <= i < |ring| ==>
      ParsedRing(ring, Some(z), translateZ).value[i].z == z + (if translateZ.Some? then translateZ.value else 0.0)
  {
    forall i | 0 <= i < |ring|
      ensures ParsedRing(ring, Some(z), translateZ).value[i].z == z + (if translateZ.Some? then translateZ.value else 0.0)
    {
      assert ParseCoords(ring[i], Some(z), translateZ) == Ok(ParsedRing(ring, Some(z), translateZ).value[i]);
    }
  }

  /** Without limits the surface is the flat footprint alone. */
  lemma NoLimitsIsFlat(earcut: Earcut, toEcef: ToEcef, rings: seq<seq<Position>>, o: PolygonOptions)
    requires o.lowerLimit.None? && o.upperLimit.None?
    requires ParsedRings(rings, None, o.translateZ).Ok?
    ensures PolygonSpec(earcut, toEcef, rings, o)
         == TriangulateSpec(earcut, toEcef, ParsedRings(rings, None, o.translateZ).value, false)
  {
  }

  /** With limits, the copy with the greater average outer height is passed as the upper set;
    * a tie keeps the lower-limit copy below. */
  lemma LimitsOrderTheCopies(earcut: Earcut, toEcef: ToEcef, rings: seq<seq<Position>>, o: PolygonOptions)
    requires o.lowerLimit.Some? || o.upperLimit.Some?
    requires ParsedRings(rings, o.lowerLimit, o.translateZ).Ok?
    requires |rings| > 0 && |rings[0]| > 0
    ensures ParsedRings(rings, o.upperLimit, o.translateZ).Ok?
    ensures var lower := ParsedRings(rings, o.lowerLimit, o.translateZ).value;
      var upper := ParsedRings(rings, o.upperLimit, o.translateZ).value;
      MeanHeight(lower[0]).Ok? && MeanHeight(upper[0]).Ok? &&
      PolygonSpec(earcut, toEcef, rings, o)
        == if MeanHeight(lower[0]).value <= MeanHeight(upper[0]).value
           then SurfaceSpec(earcut, toEcef, lower, Some(upper), o.removeBottomSurface)
           else SurfaceSpec(earcut, toEcef, upper, Some(lower), o.removeBottomSurface)
  {
    ParsedRingsSameShape(rings, o.lowerLimit, o.upperLimit, o.translateZ);
    assert |ParsedRings(rings, o.lowerLimit, o.translateZ).value[0]| == |rings[0]| by {
      assert ParsedRing(rings[0], o.lowerLimit, o.translateZ) == Ok(ParsedRings(rings, o.lowerLimit, o.translateZ).value[0]);
    }
  }

  /** The error paths of the limit case: a polygon without rings, and one whose outer ring is
    * empty. */
  lemma LimitsNeedAnOuterRing(earcut: Earcut, toEcef: ToEcef, rings: seq<seq<Position>>, o: PolygonOptions)
    requires o.lowerLimit.Some? || o.upperLimit.Some?
    requires ParsedRings(rings, o.lowerLimit, o.translateZ).Ok?
    requires |rings| == 0 || |rings[0]| == 0
    ensures PolygonSpec(earcut, toEcef, rings, o)
         == Err(if |rings| == 0 then IndexError else ZeroDivisionError)
  {
    if |rings| > 0 {
      var lower := ParsedRings(rings, o.lowerLimit, o.translateZ);
      assert ParsedRing(rings[0], o.lowerLimit, o.translateZ) == Ok(lower.value[0]);
    }
  }

  /** A flat polygon without rings reaches earcut, whose helper prints nothing: ValueError. */
  lemma NoRingsFlatIsValueError(earcut: Earcut, toEcef: ToEcef, o: PolygonOptions)
    requires o.lowerLimit.None? && o.upperLimit.None?
    ensures PolygonSpec(earcut, toEcef, [], o) == Err(ValueError)
  {
    EarcutJsRoundTrip(earcut, []);
  }

  /** An extruded surface: the top, then two wall faces per edge of every ring, then the bottom
    * turned over; every face a closed triangle. */
  lemma ExtrudedSurfaceParts(earcut: Earcut, toEcef: ToEcef, lower: seq<Ring>, upper: seq<Ring>)
    requires |upper| > 0 && |lower| == |upper|
    requires forall i :: 0 <= i < |lower| ==> |lower[i]| == |upper[i]|
    requires TriangulateSpec(earcut, toEcef, upper, false).Ok?
    requires TriangulateSpec(earcut, toEcef, lower, true).Ok?
    ensures var r := SurfaceSpec(earcut, toEcef, lower, Some(upper), false);
      var top := TriangulateSpec(earcut, toEcef, upper, false).value;
      var bottom := TriangulateSpec(earcut, toEcef, lower, true).value;
      r.Ok? && |r.value| == |top| + WallTotal(lower) + |bottom| &&
      r.value[..|top|] == top && r.value[|r.value| - |bottom|..] == bottom &&
      forall k :: 0 <= k < |r.value| ==> Closed(r.value[k])
  {
    RingWallsOfSameShape(toEcef, lower, upper);
    var top := TriangulateSpec(earcut, toEcef, upper, false).value;
    var walls := RingWalls(toEcef, lower, upper).value;
    var bottom := TriangulateSpec(earcut, toEcef, lower, true).value;
    assert SurfaceSpec(earcut, toEcef, lower, Some(upper), false) == Ok(top + walls + bottom);
    ThreePartsClosed(top, walls, bottom);
  }

  /** Closed faces in three runs give closed faces, with the first and last run at either end. */
  lemma ThreePartsClosed(top: seq<Face>, walls: seq<Face>, bottom: seq<Face>)
    requires forall k :: 0 <= k < |top| ==> Closed(top[k])
    requires forall k :: 0 <= k < |walls| ==> Closed(walls[k])
    requires forall k :: 0 <= k < |bottom| ==> Closed(bottom[k])
    ensures var all := top + walls + bottom;
      all[..|top|] == top && all[|all| - |bottom|..] == bottom &&
      forall k :: 0 <= k < |all| ==> Closed(all[k])
  {
    var all := top + walls + bottom;
    assert all[..|top|] == top;
    assert all[|all| - |bottom|..] == bottom;
    forall k | 0 <= k < |all|
      ensures Closed(all[k])
    {
      if k < |top| {
        assert all[k] == top[k];
      } else if k < |top| + |walls| {
        assert all[k] == walls[k - |top|];
      } else {
        assert all[k] == bottom[k - |top| - |walls|];
      }
    }
  }

  /** Any geometry other than a Polygon gives no faces, whose text is the empty surface. */
  lemma NonPolygonIsEmptySurface(ip: Interpreter, earcut: Earcut, toEcef: ToEcef, g: Geometry, o: PolygonOptions)
    requires !g.Polygon?
    ensures GeometrySpec(earcut, toEcef, g, o) == Ok([])
    ensures Wkt(ip, []) == EmptySurface
  {
  }
}
