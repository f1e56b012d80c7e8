/** The frontend's conversion of Polygon and MultiPolygon features into POLYHEDRALSURFACE Z
  * geometries: a triangulated top, side walls and an optional bottom. The legacy server's
  * version shares these helpers. */
module TsPolyhedron {
  import opened Wrappers
  import opened Numbers
  import opened Lists
  import opened GeoJson
  import opened Elevation
  import opened JsValues
  import opened Surfaces

  /** `parseCoords(coords, z, translateZ)`: a defined `z` replaces the height (0 included),
    * otherwise `coords[2] || 0`; `translateZ || 0` is added. */
  function ParseCoords(coords: Position, z: Option<real>, translateZ: Option<real>): (v: Vec3)
    ensures v.x == coords[0] && v.y == coords[1]
  {
    var t := if translateZ.Some? then translateZ.value else 0.0;
    Vec3(coords[0], coords[1], (if z.Some? then z.value else Z(coords)) + t)
  }

  /** `parseRing(ring, z, translateZ)` */
  function ParseRing(ring: seq<Position>, z: Option<real>, translateZ: Option<real>): (r: Ring)
    ensures |r| == |ring|
    ensures forall i :: 0 <= i < |ring| ==> r[i] == ParseCoords(ring[i], z, translateZ)
  {
    seq(|ring|, i requires 0 <= i < |ring| => ParseCoords(ring[i], z, translateZ))
  }

  function ParseRings(rings: seq<seq<Position>>, z: Option<real>, translateZ: Option<real>): (rs: seq<Ring>)
    ensures |rs| == |rings|
    ensures forall i :: 0 <= i < |rings| ==> rs[i] == ParseRing(rings[i], z, translateZ)
  {
    seq(|rings|, i requires 0 <= i < |rings| => ParseRing(rings[i], z, translateZ))
  }

  /** A ring parsed with a limit lies level at that limit, shifted by the translation. */
  lemma ParsedRingIsLevel(ring: seq<Position>, z: real, translateZ: Option<real>, i: nat)
    requires i < |ring|
    ensures ParseRing(ring, Some(z), translateZ)[i].z == z + (if translateZ.Some? then translateZ.value else 0.0)
  {
  }

  /** `sumUntilIndex(arr, index)`: filter the entries before `index`, then add them up. */
  function SumUntilIndex(arr: seq<real>, index: int): real
  {
    Sum(FilterIndexed(arr, (v: real, idx: nat) => idx < index))
  }

  lemma {:induction false} FilterBeforeIndex(arr: seq<real>, index: nat)
    requires index <= |arr|
    ensures FilterIndexed(arr, (v: real, idx: nat) => idx < index) == arr[..index]
    decreases |arr|
  {
    if |arr| > 0 {
      var n := |arr| - 1;
      if n < index {
        FilterBeforeIndex(arr[..n], n);
        assert arr[..n][..n] == arr[..n];
        assert FilterIndexed(arr[..n], (v: real, idx: nat) => idx < index)
            == FilterIndexed(arr[..n], (v: real, idx: nat) => idx < n) by {
          FilterSamePrefix(arr[..n], index, n);
        }
      } else {
        FilterBeforeIndex(arr[..n], index);
      }
    }
  }

  lemma {:induction false} FilterSamePrefix(arr: seq<real>, a: nat, b: nat)
    requires |arr| <= a && |arr| <= b
    ensures FilterIndexed(arr, (v: real, idx: nat) => idx < a) == FilterIndexed(arr, (v: real, idx: nat) => idx < b)
  {
    if |arr| > 0 {
      FilterSamePrefix(arr[..|arr| - 1], a, b);
    }
  }

  /** `sumUntilIndex(arr, i)` is the sum of the first `i` entries. */
  lemma SumUntilIndexIsPrefixSum(arr: seq<real>, index: nat)
    requires index <= |arr|
    ensures SumUntilIndex(arr, index) == Sum(arr[..index])
  {
    FilterBeforeIndex(arr, index);
  }

  /** `holesIndices` as the code computes it: the length of each ring but the last, then each
    * plus the sum of the lengths before it. */
  function HolesIndices(rings: seq<Ring>): seq<real>
  {
    var lengths := if |rings| == 0 then [] else seq(|rings| - 1, i requires 0 <= i < |rings| - 1 => |rings[i]| as real);
    seq(|lengths|, i requires 0 <= i < |lengths| => lengths[i] + SumUntilIndex(lengths, i))
  }

  lemma {:induction false} LengthSum(rings: seq<Ring>)
    ensures Sum(seq(|rings|, i requires 0 <= i < |rings| => |rings[i]| as real)) == |Flatten(rings)| as real
  {
    if |rings| > 0 {
      var n := |rings| - 1;
      LengthSum(rings[..n]);
      var ls := seq(|rings|, i requires 0 <= i < |rings| => |rings[i]| as real);
      assert ls[..n] == seq(n, i requires 0 <= i < n => |rings[..n][i]| as real);
      assert rings == rings[..n] + [rings[n]];
      FlattenSnoc(rings[..n], rings[n]);
    }
  }

  /** The hole indices handed to earcut are where each hole starts in the flattened vertices. */
  lemma HolesIndicesAreHoleStarts(rings: seq<Ring>)
    ensures |HolesIndices(rings)| == |HoleStarts(rings)|
    ensures forall i :: 0 <= i < |HoleStarts(rings)| ==> HolesIndices(rings)[i] == HoleStarts(rings)[i] as real
  {
    if |rings| > 0 {
      var lengths := seq(|rings| - 1, i requires 0 <= i < |rings| - 1 => |rings[i]| as real);
      forall i | 0 <= i < |lengths|
        ensures HolesIndices(rings)[i] == HoleStarts(rings)[i] as real
      {
        SumUntilIndexIsPrefixSum(lengths, i);
        var pre := rings[..i + 1];
        LengthSum(pre);
        var ls := seq(|pre|, j requires 0 <= j < |pre| => |pre[j]| as real);
        assert ls == lengths[..i] + [lengths[i]];
        assert Sum(ls) == Sum(lengths[..i]) + lengths[i] by {
          assert ls[..|ls| - 1] == lengths[..i];
        }
      }
    }
  }

  /** What `triangulate(coordinates, reverse)` returns; None when it throws, as it does on a
    * polygon without rings. */
  function TriangulateSpec(earcut: Earcut, toEcef: ToEcef, coordinates: seq<Ring>, reverse: bool): Option<seq<Face>>
  {
    if |coordinates| == 0 then None
    else
      var vertices := Flatten(coordinates);
      Triangles(toEcef, vertices, earcut(vertices, HoleStarts(coordinates)), reverse)
  }

  /** `triangulate`, with its loop over the index triples. */
  method Triangulate(earcut: Earcut, toEcef: ToEcef, coordinates: seq<Ring>, reverse: bool) returns (r: Option<seq<Face>>)
    ensures r == TriangulateSpec(earcut, toEcef, coordinates, reverse)
  {
    if |coordinates| == 0 {
      return None;
    }
    var vertices := Flatten(coordinates);
    var indices := earcut(vertices, HoleStarts(coordinates));
    var polyhedron: seq<Face> := [];
    var i := 0;
    while i < |indices|
      invariant i == 3 * |polyhedron| && i <= |indices|
      invariant forall k :: 0 <= k < i ==> indices[k] < |vertices|
      invariant forall t :: 0 <= t < |polyhedron| ==> polyhedron[t] == TriangleFace(toEcef, vertices, indices, t, reverse)
    {
      if i + 2 >= |indices| || indices[i] >= |vertices| || indices[i + 1] >= |vertices| || indices[i + 2] >= |vertices| {
        assert !ValidIndices(indices, |vertices|);
        return None;
      }
      var a := toEcef(vertices[indices[i]]);
      var b := toEcef(vertices[indices[i + (if reverse then 2 else 1)]]);
      var c := toEcef(vertices[indices[i + (if reverse then 1 else 2)]]);
      polyhedron := polyhedron + [[a, b, c, a]];
      i := i + 3;
    }
    assert ValidIndices(indices, |vertices|);
    assert |indices| / 3 == |polyhedron|;
    assert Triangles(toEcef, vertices, indices, reverse).value == polyhedron;
    return Some(polyhedron);
  }

  /** `planeToWall(lowerRing, upperRing)`, with its loop over consecutive pairs; a missing upper
    * ring is passed as the empty ring. */
  method PlaneToWall(toEcef: ToEcef, lowerRing: Ring, upperRing: Ring) returns (r: Option<seq<Face>>)
    ensures r == WallFaces(toEcef, lowerRing, upperRing)
  {
    var polyhedron: seq<Face> := [];
    var i := 0;
    while i < |lowerRing| - 1
      invariant 0 <= i <= (if |lowerRing| == 0 then 0 else |lowerRing| - 1)
      invariant i > 0 ==> i < |upperRing|
      invariant |polyhedron| == 2 * i
      invariant forall k :: 0 <= k < 2 * i ==> polyhedron[k] == WallFace(toEcef, lowerRing, upperRing, k)
    {
      if i + 1 >= |upperRing| {
        return None;
      }
      var bl := toEcef(lowerRing[i]);
      var br := toEcef(lowerRing[i + 1]);
      var tl := toEcef(upperRing[i]);
      var tr := toEcef(upperRing[i + 1]);
      polyhedron := polyhedron + [[bl, tl, br, bl]] + [[br, tl, tr, br]];
      i := i + 1;
    }
    if |lowerRing| < 2 {
      return Some([]);
    }
    assert |upperRing| >= |lowerRing|;
    assert WallFaces(toEcef, lowerRing, upperRing).value == polyhedron;
    return Some(polyhedron);
  }

  /** `generateWalls(lower, upper)`: the walls of every ring pair, in ring order. */
  function GenerateWalls(toEcef: ToEcef, lower: seq<Ring>, upper: seq<Ring>): Option<seq<Face>>
  {
    RingWalls(toEcef, lower, upper)
  }

  /** `toPolyhedralSurface(feature, [lower, upper], removeBottomSurface)`: one surface when
    * there is no upper set, otherwise the upper surface, the walls and, unless removed, the
    * lower surface turned over. */
  function ToPolyhedralSurface(earcut: Earcut, toEcef: ToEcef, lower: seq<Ring>, upper: Option<seq<Ring>>,
                               removeBottomSurface: bool): (r: Option<seq<Face>>)
    ensures r.Some? ==> forall k :: 0 <= k < |r.value| ==> Closed(r.value[k])
  {
    if upper.None? then TriangulateSpec(earcut, toEcef, lower, false)
    else
      var top := TriangulateSpec(earcut, toEcef, upper.value, false);
      var walls := GenerateWalls(toEcef, lower, upper.value);
      var bottom := if removeBottomSurface then Some([]) else TriangulateSpec(earcut, toEcef, lower, true);
      if top.Some? && walls.Some? && bottom.Some? then
        Some(top.value + walls.value + bottom.value)
      else None
  }

  /** The options `computeOptions` gives a feature. */
  datatype SurfaceOptions = SurfaceOptions(
    lowerLimit: Option<real>,
    upperLimit: Option<real>,
    translateZ: Option<real>,
    removeBottomSurface: bool)

  /** `options || {}` */
  function OrEmpty(options: Option<SurfaceOptions>): SurfaceOptions
  {
    if options.Some? then options.value else SurfaceOptions(None, None, None, false)
  }

  /** `parsers.Polygon(feature, options)`. Without limits the surface is flat; otherwise the two
    * copies are ordered by the mean height of their outer rings, the higher one on top. A
    * polygon without rings throws; an empty outer ring gives NaN means and keeps the order. */
  function ParsePolygon(earcut: Earcut, toEcef: ToEcef, rings: seq<seq<Position>>, options: Option<SurfaceOptions>): Option<seq<Face>>
  {
    var o := OrEmpty(options);
    if o.lowerLimit.None? && o.upperLimit.None? then
      ToPolyhedralSurface(earcut, toEcef, ParseRings(rings, o.lowerLimit, o.translateZ), None, o.removeBottomSurface)
    else
      var lower := ParseRings(rings, o.lowerLimit, o.translateZ);
      var upper := ParseRings(rings, o.upperLimit, o.translateZ);
      if |rings| == 0 then None
      else if Less(MeanZ(upper[0]), MeanZ(lower[0])) then
        ToPolyhedralSurface(earcut, toEcef, upper, Some(lower), o.removeBottomSurface)
      else
        ToPolyhedralSurface(earcut, toEcef, lower, Some(upper), o.removeBottomSurface)
  }

  /** Each polygon's surface, as the MultiPolygon parser computes them one by one. */
  function PolygonSurfaces(earcut: Earcut, toEcef: ToEcef, polygons: seq<seq<seq<Position>>>, options: Option<SurfaceOptions>): (parts: seq<Option<seq<Face>>>)
    ensures |parts| == |polygons|
    ensures forall i :: 0 <= i < |polygons| ==> parts[i] == ParsePolygon(earcut, toEcef, polygons[i], options)
  {
    seq(|polygons|, i requires 0 <= i < |polygons| => ParsePolygon(earcut, toEcef, polygons[i], options))
  }

  /** `parsers.MultiPolygon(feature, options)`: the polygons' surfaces, one after the other. */
  function ParseMultiPolygon(earcut: Earcut, toEcef: ToEcef, polygons: seq<seq<seq<Position>>>, options: Option<SurfaceOptions>): Option<seq<Face>>
  {
    ConcatSurfaces(PolygonSurfaces(earcut, toEcef, polygons, options))
  }

  /** A feature of the output collection: the input feature with its geometry replaced by a
    * POLYHEDRALSURFACE Z holding `faces`. */
  datatype SurfaceFeature = SurfaceFeature(properties: Option<Props>, others: Props, faces: seq<Face>)

  /** `parsers[feature.geometry.type](feature, options)`: only Polygon and MultiPolygon have a
    * parser; any other type, or a missing geometry, throws. */
  function ParseFeature(earcut: Earcut, toEcef: ToEcef, f: JsFeature, options: Option<SurfaceOptions>): Option<seq<Face>>
  {
    match f.geometry
    case Some(Polygon(rings)) => ParsePolygon(earcut, toEcef, rings, options)
    case Some(MultiPolygon(ps)) => ParseMultiPolygon(earcut, toEcef, ps, options)
    case _ => None
  }

  /** The per-feature step of `collectionToPolyhedralSurfaceZ`. */
  function ToSurfaceFeature(earcut: Earcut, toEcef: ToEcef, computeOptions: JsFeature -> Option<SurfaceOptions>,
                            f: JsFeature): Option<SurfaceFeature>
  {
    var faces := ParseFeature(earcut, toEcef, f, computeOptions(f));
    if faces.Some? then Some(SurfaceFeature(f.properties, f.others, faces.value)) else None
  }

  /** `collectionToPolyhedralSurfaceZ(collection, { filter, computeOptions })`: the features of
    * the output collection, None when a feature throws. A collection without features gives an
    * empty collection. */
  function CollectionToPolyhedralSurfaceZ(earcut: Earcut, toEcef: ToEcef, features: Option<seq<JsFeature>>,
                                          filter: (JsFeature, nat) -> bool,
                                          computeOptions: JsFeature -> Option<SurfaceOptions>): Option<seq<SurfaceFeature>>
  {
    if features.None? then Some([])
    else MapAll(f => ToSurfaceFeature(earcut, toEcef, computeOptions, f), FilterIndexed(features.value, filter))
  }

  // ---------------------------------------------------------------------------
  // Properties

  /** Without limits the result is the flat triangulated footprint: no walls, no bottom. */
  lemma NoLimitsIsFlat(earcut: Earcut, toEcef: ToEcef, rings: seq<seq<Position>>, o: SurfaceOptions)
    requires o.lowerLimit.None? && o.upperLimit.None?
    ensures ParsePolygon(earcut, toEcef, rings, Some(o))
         == TriangulateSpec(earcut, toEcef, ParseRings(rings, None, o.translateZ), false)
  {
  }

  /** With both limits set the copy at the higher limit is the top, whichever limit is higher;
    * at equal limits the lower-limit copy stays below. */
  lemma LimitsOrderTheCopies(earcut: Earcut, toEcef: ToEcef, rings: seq<seq<Position>>, o: SurfaceOptions)
    requires o.lowerLimit.Some? && o.upperLimit.Some?
    requires |rings| > 0 && |rings[0]| > 0
    ensures var lo := ParseRings(rings, o.lowerLimit, o.translateZ);
      var hi := ParseRings(rings, o.upperLimit, o.translateZ);
      ParsePolygon(earcut, toEcef, rings, Some(o))
        == if o.lowerLimit.value > o.upperLimit.value
           then ToPolyhedralSurface(earcut, toEcef, hi, Some(lo), o.removeBottomSurface)
           else ToPolyhedralSurface(earcut, toEcef, lo, Some(hi), o.removeBottomSurface)
  {
    var t := if o.translateZ.Some? then o.translateZ.value else 0.0;
    var lo := ParseRings(rings, o.lowerLimit, o.translateZ);
    var hi := ParseRings(rings, o.upperLimit, o.translateZ);
    MeanOfLevelRing(lo[0], o.lowerLimit.value + t);
    MeanOfLevelRing(hi[0], o.upperLimit.value + t);
  }

  /** An empty outer ring makes both means NaN, the comparison false and the order unchanged. */
  lemma EmptyOuterRingKeepsOrder(earcut: Earcut, toEcef: ToEcef, rings: seq<seq<Position>>, o: SurfaceOptions)
    requires o.lowerLimit.Some? || o.upperLimit.Some?
    requires |rings| > 0 && rings[0] == []
    ensures ParsePolygon(earcut, toEcef, rings, Some(o))
         == ToPolyhedralSurface(earcut, toEcef, ParseRings(rings, o.lowerLimit, o.translateZ),
                                Some(ParseRings(rings, o.upperLimit, o.translateZ)), o.removeBottomSurface)
  {
    assert ParseRings(rings, o.upperLimit, o.translateZ)[0] == [];
    assert ParseRings(rings, o.lowerLimit, o.translateZ)[0] == [];
  }

  /** Between two copies of one footprint the walls always exist, and a prism without its bottom
    * has the top's faces plus two per edge of every ring. */
  lemma PrismFaceCount(earcut: Earcut, toEcef: ToEcef, rings: seq<seq<Position>>, lo: Option<real>, hi: Option<real>,
                       translateZ: Option<real>)
    requires TriangulateSpec(earcut, toEcef, ParseRings(rings, hi, translateZ), false).Some?
    ensures var lower := ParseRings(rings, lo, translateZ);
      var upper := ParseRings(rings, hi, translateZ);
      var s := ToPolyhedralSurface(earcut, toEcef, lower, Some(upper), true);
      s.Some? &&
      |s.value| == |TriangulateSpec(earcut, toEcef, upper, false).value| + WallTotal(lower)
  {
    var lower := ParseRings(rings, lo, translateZ);
    var upper := ParseRings(rings, hi, translateZ);
    RingWallsOfSameShape(toEcef, lower, upper);
  }

  /** A MultiPolygon's surface is its polygons' surfaces in order, and fails when one does. */
  lemma MultiPolygonConcatenates(earcut: Earcut, toEcef: ToEcef, polygons: seq<seq<seq<Position>>>, options: Option<SurfaceOptions>)
    ensures var parts := PolygonSurfaces(earcut, toEcef, polygons, options);
      ParseMultiPolygon(earcut, toEcef, polygons, options).Some? <==> forall i :: 0 <= i < |parts| ==> parts[i].Some?
    ensures var parts := PolygonSurfaces(earcut, toEcef, polygons, options);
      ParseMultiPolygon(earcut, toEcef, polygons, options).Some? ==>
        ParseMultiPolygon(earcut, toEcef, polygons, options).value == Flatten(seq(|parts|, i requires 0 <= i < |parts| => parts[i].value))
  {
    var parts := PolygonSurfaces(earcut, toEcef, polygons, options);
    if ParseMultiPolygon(earcut, toEcef, polygons, options).Some? {
      ConcatSurfacesValue(parts);
    }
  }

  /** The collection keeps the features the filter keeps, in order, each with its properties and
    * other members, its geometry replaced by its surface; it throws on a feature whose geometry
    * is neither a Polygon nor a MultiPolygon. */
  lemma CollectionMapsKeptFeatures(earcut: Earcut, toEcef: ToEcef, features: seq<JsFeature>,
                                   filter: (JsFeature, nat) -> bool, computeOptions: JsFeature -> Option<SurfaceOptions>)
    ensures var kept := FilterIndexed(features, filter);
      var r := CollectionToPolyhedralSurfaceZ(earcut, toEcef, Some(features), filter, computeOptions);
      (r.Some? ==> (|r.value| == |kept| &&
        forall i :: 0 <= i < |kept| ==>
          r.value[i].properties == kept[i].properties && r.value[i].others == kept[i].others &&
          Some(r.value[i].faces) == ParseFeature(earcut, toEcef, kept[i], computeOptions(kept[i])))) &&
      ((exists i :: 0 <= i < |kept| && !(kept[i].geometry.Some? && (kept[i].geometry.value.Polygon? || kept[i].geometry.value.MultiPolygon?)))
        ==> r.None?)
  {
    var kept := FilterIndexed(features, filter);
    var r := CollectionToPolyhedralSurfaceZ(earcut, toEcef, Some(features), filter, computeOptions);
    if exists i :: 0 <= i < |kept| && !(kept[i].geometry.Some? && (kept[i].geometry.value.Polygon? || kept[i].geometry.value.MultiPolygon?)) {
      var i :| 0 <= i < |kept| && !(kept[i].geometry.Some? && (kept[i].geometry.value.Polygon? || kept[i].geometry.value.MultiPolygon?));
      assert ToSurfaceFeature(earcut, toEcef, computeOptions, kept[i]).None?;
    }
  }

  /** A collection without features gives an empty one. */
  lemma MissingFeaturesGiveEmptyCollection(earcut: Earcut, toEcef: ToEcef, filter: (JsFeature, nat) -> bool,
                                          computeOptions: JsFeature -> Option<SurfaceOptions>)
    ensures CollectionToPolyhedralSurfaceZ(earcut, toEcef, None, filter, computeOptions) == Some([])
  {
  }
}
