/** The legacy server's expression helpers: a filtrex expression evaluated against a feature's
  * properties, with the feature's least elevation exposed as `$minZ`. */
module JsExpression {
  import opened Wrappers
  import opened Numbers
  import opened GeoJson
  import opened JsValues
  import opened Lists
  import opened Elevation
  import opened JsNumber

  /** `compileExpression(value)(env)` of the filtrex library: a value, or a throw when the text
    * does not compile or the evaluation fails. */
  type Filtrex = (JsValue, Props) -> Completion

  /** The elevations of a MultiPoint, `coords[2]` each, undefined where a position has none. */
  function MultiPointZs(ps: seq<Position>): (v: JsValue)
    ensures v.Arr? && |v.elems| == |ps|
  {
    Arr(seq(|ps|, i requires 0 <= i < |ps| => if |ps[i]| > 2 then NumberValue(ps[i][2]) else Undefined))
  }

  /** `getGeometryValues(geometry).$minZ` as written: a MultiPolygon falls through to 0, because
    * its branch tests the type name 'MultyPolygon'. */
  function MinZAsWritten(g: Option<Geometry>): JsValue
  {
    match g
    case None => NumberValue(0.0)
    case Some(Point(p)) => NumberValue(Z(p))
    case Some(MultiPoint(ps)) => MultiPointZs(ps)
    case Some(Polygon(rings)) => Num(PolygonMinZ(rings))
    case Some(_) => NumberValue(0.0)
  }

  /** `getGeometryValues(geometry).$minZ` with the MultiPolygon branch reached: the least of the
    * polygons' least elevations. */
  function MinZ(g: Option<Geometry>): JsValue
  {
    match g
    case Some(MultiPolygon(ps)) =>
      Num(MathMin(seq(|ps|, i requires 0 <= i < |ps| => PolygonMinZ(ps[i]))))
    case _ => MinZAsWritten(g)
  }

  /** The positions of all polygons of a MultiPolygon, polygon by polygon, ring by ring. */
  function MultiPolygonPositions(ps: seq<seq<seq<Position>>>): seq<Position>
  {
    Flatten(seq(|ps|, i requires 0 <= i < |ps| => Flatten(ps[i])))
  }

  /** As written, a MultiPolygon whose only position stands at 5 gets `$minZ` 0. */
  lemma MultiPolygonMinZAsWritten()
    ensures var ps := [[[[0.0, 0.0, 5.0]]]];
      MinZAsWritten(Some(MultiPolygon(ps))) == NumberValue(0.0) &&
      MathMin(ZNumbers(MultiPolygonPositions(ps))) == Finite(5.0)
  {
    var ps: seq<seq<seq<Position>>> := [[[[0.0, 0.0, 5.0]]]];
    var p: Position := [0.0, 0.0, 5.0];
    assert Flatten(ps[0]) == [p] by {
      assert Flatten(ps[0]) == ps[0][0] + Flatten(ps[0][1..]);
    }
    var flats := seq(|ps|, i requires 0 <= i < |ps| => Flatten(ps[i]));
    assert flats == [[p]];
    assert MultiPolygonPositions(ps) == [p] by {
      assert Flatten(flats) == flats[0] + Flatten(flats[1..]);
    }
    assert ZNumbers([p]) == [Finite(5.0)];
  }

  /** With the branch reached, a Polygon's and a MultiPolygon's `$minZ` is the least elevation
    * over all of their positions, +Infinity when there are none. */
  lemma MinZIsLeastElevation(g: Geometry)
    ensures g.Polygon? ==> MinZ(Some(g)) == Num(MathMin(ZNumbers(Flatten(g.rings))))
    ensures g.MultiPolygon? ==> MinZ(Some(g)) == Num(MathMin(ZNumbers(MultiPolygonPositions(g.polygons))))
  {
    if g.Polygon? {
      PolygonMinZIsFlat(g.rings);
    } else if g.MultiPolygon? {
      var ps := g.polygons;
      var flats := seq(|ps|, i requires 0 <= i < |ps| => Flatten(ps[i]));
      forall i | 0 <= i < |ps|
        ensures PolygonMinZ(ps[i]) == MathMin(RingZNumbers(flats)[i])
      {
        PolygonMinZIsFlat(ps[i]);
      }
      assert seq(|ps|, i requires 0 <= i < |ps| => PolygonMinZ(ps[i])) == Mins(RingZNumbers(flats));
      MinOfMins(RingZNumbers(flats));
      RingZNumbersFlatten(flats);
    }
  }

  /** The object `{ ...properties, ...getGeometryValues(geometry) }`, with `$minZ` as written:
    * 0 for a MultiPolygon. */
  function Env(f: JsFeature): Props
  {
    var props := if f.properties.Some? then f.properties.value else [];
    Assign(props, "$minZ", MinZAsWritten(f.geometry))
  }

  /** Geometry values are spread last, so `$minZ` shadows a property of that name and every
    * other property reads as before. */
  lemma EnvShadowsProperties(f: JsFeature, k: string)
    ensures Lookup(Env(f), "$minZ") == MinZAsWritten(f.geometry)
    ensures k != "$minZ" ==> Lookup(Env(f), k) == (if f.properties.Some? then Lookup(f.properties.value, k) else Undefined)
  {
  }

  /** The environment with the MultiPolygon branch reached. */
  function EnvCorrected(f: JsFeature): Props
  {
    var props := if f.properties.Some? then f.properties.value else [];
    Assign(props, "$minZ", MinZ(f.geometry))
  }

  /** With the branch reached, the environment differs from the one as written only for a
    * MultiPolygon, whose `$minZ` becomes the least height over all of its positions. */
  lemma EnvCorrectedMinZ(f: JsFeature)
    ensures f.geometry.Some? && f.geometry.value.MultiPolygon? ==>
      Lookup(EnvCorrected(f), "$minZ") == Num(MathMin(ZNumbers(MultiPolygonPositions(f.geometry.value.polygons))))
    ensures !(f.geometry.Some? && f.geometry.value.MultiPolygon?) ==> EnvCorrected(f) == Env(f)
  {
    if f.geometry.Some? && f.geometry.value.MultiPolygon? {
      MinZIsLeastElevation(f.geometry.value);
    }
  }

  /** `parseNumericExpression(value, feature)` */
  function ParseNumericExpression(filtrex: Filtrex, e: Engine, value: JsValue, f: JsFeature): (r: JsValue)
    ensures r == Undefined || IsNumber(e, r)
    ensures !Truthy(value) ==> r == Undefined
    ensures r != Undefined ==> filtrex(value, Env(f)) == Normal(r)
    ensures Truthy(value) && filtrex(value, Env(f)).Normal? && IsNumber(e, filtrex(value, Env(f)).v) ==>
      r == filtrex(value, Env(f)).v
  {
    if !Truthy(value) then Undefined
    else
      match filtrex(value, Env(f))
      case Throw => Undefined
      case Normal(result) => if IsNumber(e, result) then result else Undefined
  }

  /** `parseStringExpression(value, feature)` */
  function ParseStringExpression(filtrex: Filtrex, e: Engine, value: JsValue, f: JsFeature): (r: JsValue)
    ensures r == Undefined || r.Str?
    ensures !Truthy(value) ==> r == Undefined
    ensures r.Str? <==> Truthy(value) && filtrex(value, if f.properties.Some? then f.properties.value else []).Normal?
    ensures r.Str? ==> r == Str(ToString(e, filtrex(value, if f.properties.Some? then f.properties.value else []).v))
  {
    if !Truthy(value) then Undefined
    else
      var props := if f.properties.Some? then f.properties.value else [];
      match filtrex(value, props)
      case Throw => Undefined
      case Normal(result) => Str(ToString(e, result))
  }

  /** The string form sees no geometry values: features with the same properties give the same text. */
  lemma StringIgnoresGeometry(filtrex: Filtrex, e: Engine, value: JsValue, f1: JsFeature, f2: JsFeature)
    requires f1.properties == f2.properties
    ensures ParseStringExpression(filtrex, e, value, f1) == ParseStringExpression(filtrex, e, value, f2)
  {
  }

  /** A result that is not a number, such as a MultiPoint's array of elevations or a string, is dropped. */
  lemma NonNumericResultDropped(filtrex: Filtrex, e: Engine, value: JsValue, f: JsFeature, s: string)
    requires Truthy(value) && filtrex(value, Env(f)) == Normal(Str(s))
    ensures ParseNumericExpression(filtrex, e, value, f) == Undefined
  {
  }
}
