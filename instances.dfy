/** Point-instance batching: every feature of a collection becomes one instance record
  * (scale, rotation, model, tags and a lifted position), and the collection lists the models
  * it references, each once. The legacy server (`collectionToPointInstances` in its
  * instances module) and the viewer's point-geometry canvas carry two copies that differ in
  * the default model and in how tag keys are written. */
module Instances {
  import opened Wrappers
  import opened Numbers
  import opened Text
  import opened Lists
  import opened GeoJson
  import opened JsValues

  /** Which copy: the legacy server's or the viewer's. */
  datatype Dialect = Server | Viewer

  /** `{ scale, rotation, model, tags }`: the only properties an instance keeps. */
  datatype InstanceProps = InstanceProps(scale: JsValue, rotation: JsValue, model: JsValue, tags: seq<(string, JsValue)>)

  /** `{ ...feature, properties, geometry: { ...feature.geometry, coordinates } }`: the other
    * members of the feature, the new properties, the geometry's `type` (absent without a
    * geometry) and the three new coordinates. */
  datatype PointInstance = PointInstance(others: Props, properties: InstanceProps, geometryType: Option<string>,
                                         coordinates: seq<JsValue>)

  datatype InstanceCollection = InstanceCollection(features: seq<PointInstance>, models: seq<JsValue>)

  /** The model used when the options name none. */
  function DefaultModel(d: Dialect): string
  {
    match d
    case Server => "model.glb"
    case Viewer => ""
  }

  /** The server writes a tag key with its spaces replaced by '_' and lower-cased; the viewer
    * keeps it as it is. */
  function TagKey(d: Dialect, key: string): string
  {
    match d
    case Server => Lower(ReplaceChar(key, ' ', '_'))
    case Viewer => key
  }

  /** `Object.keys(properties).map((key) => ({ [TagKey(key)]: properties[key] }))` */
  function Tags(d: Dialect, p: Props): (tags: seq<(string, JsValue)>)
    ensures |tags| == |p|
    ensures forall i :: 0 <= i < |p| ==> tags[i] == (TagKey(d, p[i].0), Lookup(p, p[i].0))
  {
    seq(|p|, i requires 0 <= i < |p| => (TagKey(d, p[i].0), Lookup(p, p[i].0)))
  }

  /** `feature?.geometry?.coordinates || []` */
  function Coordinates(g: Option<Geometry>): JsValue
  {
    Or(if g.Some? then CoordinatesValue(g.value) else Undefined, Arr([]))
  }

  /** `[coordinates[0], coordinates[1], (coordinates[2] || 0) + (options?.translateZ || 0)]` */
  function Lifted(e: Engine, coordinates: JsValue, options: JsValue): (c: seq<JsValue>)
    ensures |c| == 3
  {
    [Index(coordinates, 0), Index(coordinates, 1),
     Plus(e, Or(Index(coordinates, 2), NumberValue(0.0)), Or(Member(options, "translateZ"), NumberValue(0.0)))]
  }

  /** One feature mapped to its instance; nothing when it throws, as `Object.keys` does on a
    * feature without properties. */
  function ToInstance(e: Engine, d: Dialect, options: JsValue, f: JsFeature): Option<PointInstance>
  {
    if f.properties.None? then None
    else
      var coordinates := Coordinates(f.geometry);
      var props := InstanceProps(
        Or(Member(options, "scale"), NumberValue(1.0)),
        Or(Member(options, "rotation"), NumberValue(0.0)),
        Or(Member(options, "model"), Str(DefaultModel(d))),
        Tags(d, f.properties.value));
      Some(PointInstance(f.others, props, if f.geometry.Some? then Some(TypeName(f.geometry.value)) else None,
                         Lifted(e, coordinates, options)))
  }

  /** `computeOptions` when the caller passes one, else `() => ({})`. */
  function OptionsOf(computeOptions: Option<JsFeature -> JsValue>, f: JsFeature): JsValue
  {
    if computeOptions.Some? then computeOptions.value(f) else Obj([])
  }

  function ModelsOf(instances: seq<PointInstance>): (models: seq<JsValue>)
    ensures |models| == |instances|
    ensures forall i :: 0 <= i < |instances| ==> models[i] == instances[i].properties.model
  {
    seq(|instances|, i requires 0 <= i < |instances| => instances[i].properties.model)
  }

  /** `collectionToPointInstances(collection, { computeOptions })`; nothing when a feature
    * throws. */
  function CollectionToPointInstances(e: Engine, d: Dialect, features: Option<seq<JsFeature>>,
                                      computeOptions: Option<JsFeature -> JsValue>): Option<InstanceCollection>
  {
    var fs := if features.Some? then features.value else [];
    var instances := MapAll(f => ToInstance(e, d, OptionsOf(computeOptions, f), f), fs);
    if instances.None? then None
    else Some(InstanceCollection(instances.value, Dedup(ModelsOf(instances.value))))
  }

  /** The viewer's `features.reduce((acc, feature) => { if (!acc.includes(m)) acc.push(m);
    * return acc }, [])` over the instances' models. */
  method CollectModels(instances: seq<PointInstance>) returns (acc: seq<JsValue>)
    ensures acc == Dedup(ModelsOf(instances))
  {
    var models := ModelsOf(instances);
    acc := [];
    for i := 0 to |instances|
      invariant acc == Dedup(models[..i])
    {
      assert models[..i + 1][..i] == models[..i];
      if instances[i].properties.model !in acc {
        acc := acc + [instances[i].properties.model];
      }
    }
    assert models[..|instances|] == models;
  }

  /** A missing collection, or one without features, gives no features and no models. */
  lemma MissingFeaturesGiveEmptyCollection(e: Engine, d: Dialect, computeOptions: Option<JsFeature -> JsValue>)
    ensures CollectionToPointInstances(e, d, None, computeOptions) == Some(InstanceCollection([], []))
    ensures CollectionToPointInstances(e, d, Some([]), computeOptions) == Some(InstanceCollection([], []))
  {
  }

  /** The instances correspond one to one, in order, with the features, each keeping the
    * feature's other members; only a feature without properties makes the batch throw. */
  lemma InstancesCorrespond(e: Engine, d: Dialect, features: seq<JsFeature>, computeOptions: Option<JsFeature -> JsValue>)
    ensures var r := CollectionToPointInstances(e, d, Some(features), computeOptions);
      (r.Some? <==> forall i :: 0 <= i < |features| ==> features[i].properties.Some?) &&
      (r.Some? ==> (|r.value.features| == |features| &&
        forall i :: 0 <= i < |features| ==>
          Some(r.value.features[i]) == ToInstance(e, d, OptionsOf(computeOptions, features[i]), features[i]) &&
          r.value.features[i].others == features[i].others))
  {
    var f := (x: JsFeature) => ToInstance(e, d, OptionsOf(computeOptions, x), x);
    var instances := MapAll(f, features);
    forall i | 0 <= i < |features|
      ensures f(features[i]).Some? <==> features[i].properties.Some?
    {
    }
    if instances.Some? {
      forall i | 0 <= i < |features|
        ensures Some(instances.value[i]) == f(features[i])
        ensures instances.value[i].others == features[i].others
      {
      }
    }
  }

  /** Falsy options fall back to scale 1, rotation 0 and the default model: an explicit scale
    * of 0 becomes 1. Truthy options are kept as given. */
  lemma OptionDefaults(e: Engine, d: Dialect, options: JsValue, f: JsFeature)
    requires f.properties.Some?
    ensures var p := ToInstance(e, d, options, f).value.properties;
      (Truthy(Member(options, "scale")) ==> p.scale == Member(options, "scale")) &&
      (!Truthy(Member(options, "scale")) ==> p.scale == Num(Finite(1.0))) &&
      (!Truthy(Member(options, "rotation")) ==> p.rotation == Num(Finite(0.0))) &&
      (!Truthy(Member(options, "model")) ==> p.model == Str(DefaultModel(d)))
    ensures ToInstance(e, d, Obj([("scale", Num(Finite(0.0)))]), f).value.properties.scale == Num(Finite(1.0))
  {
  }

  /** The properties are replaced, not merged: every original property survives only as a tag,
    * one single-key tag per property, in order. The server's tag keys hold no space and no
    * upper-case letter; the viewer's are the original keys. */
  lemma TagsFollowProperties(e: Engine, d: Dialect, options: JsValue, f: JsFeature)
    requires f.properties.Some?
    ensures var p := f.properties.value;
      var tags := ToInstance(e, d, options, f).value.properties.tags;
      |tags| == |p| &&
      (forall i :: 0 <= i < |p| ==> tags[i].1 == Lookup(p, p[i].0)) &&
      (d == Viewer ==> forall i :: 0 <= i < |p| ==> tags[i].0 == p[i].0) &&
      (d == Server ==> forall i :: 0 <= i < |p| ==> ' ' !in tags[i].0 && IsLower(tags[i].0) && |tags[i].0| == |p[i].0|)
  {
    var p := f.properties.value;
    var tags := ToInstance(e, d, options, f).value.properties.tags;
    assert tags == Tags(d, p);
    if d == Server {
      forall i | 0 <= i < |p|
        ensures ' ' !in tags[i].0 && IsLower(tags[i].0) && |tags[i].0| == |p[i].0|
      {
        ServerTagKey(p[i].0);
      }
    }
  }

  /** A server tag key holds no space and no upper-case letter, and is as long as the key. */
  lemma ServerTagKey(key: string)
    ensures var t := TagKey(Server, key); ' ' !in t && IsLower(t) && |t| == |key|
  {
    var r := ReplaceChar(key, ' ', '_');
    forall k | 0 <= k < |r|
      ensures Lower(r)[k] != ' '
    {
      assert r[k] != ' ';
    }
  }

  /** A Point with a height keeps x and y, and is lifted by a numeric `translateZ`; without a
    * height or a translation, 0 stands in for each. */
  lemma PositionIsLifted(e: Engine, d: Dialect, options: JsValue, f: JsFeature, p: Position, t: real)
    requires f.properties.Some? && f.geometry == Some(Point(p))
    requires Member(options, "translateZ") == Num(Finite(t)) || (t == 0.0 && !Truthy(Member(options, "translateZ")))
    ensures var c := ToInstance(e, d, options, f).value.coordinates;
      |c| == 3 && c[0] == Num(Finite(p[0])) && c[1] == Num(Finite(p[1])) &&
      c[2] == Num(Finite((if |p| > 2 then p[2] else 0.0) + t))
    ensures ToInstance(e, d, options, f).value.geometryType == Some("Point")
  {
    var coordinates := Coordinates(f.geometry);
    assert coordinates == PositionValue(p) by {
      assert CoordinatesValue(Point(p)) == PositionValue(p);
    }
    assert ToInstance(e, d, options, f).value.coordinates == Lifted(e, coordinates, options);
    LiftOption(options, t);
    LiftedPosition(e, p, options, t);
  }

  /** A Point's instance coordinates are its x and y and its lifted height. */
  lemma PointCoordinates(e: Engine, d: Dialect, options: JsValue, f: JsFeature, p: Position, t: real)
    requires f.properties.Some? && f.geometry == Some(Point(p))
    requires Member(options, "translateZ") == Num(Finite(t)) || (t == 0.0 && !Truthy(Member(options, "translateZ")))
    ensures ToInstance(e, d, options, f).value.coordinates ==
      [Num(Finite(p[0])), Num(Finite(p[1])), Num(Finite((if |p| > 2 then p[2] else 0.0) + t))]
  {
    PositionIsLifted(e, d, options, f, p, t);
  }

  /** The lifted position of a Point's coordinates. */
  lemma LiftedPosition(e: Engine, p: Position, options: JsValue, t: real)
    requires Or(Member(options, "translateZ"), NumberValue(0.0)) == Num(Finite(t))
    ensures Lifted(e, PositionValue(p), options) ==
      [Num(Finite(p[0])), Num(Finite(p[1])), Num(Finite((if |p| > 2 then p[2] else 0.0) + t))]
  {
    PositionEntries(p);
    LiftedSum(e, PositionValue(p), options, p[0], p[1], if |p| > 2 then p[2] else 0.0, t);
  }

  /** Numeric x, y, height and lift give the position `[x, y, height + lift]`. */
  lemma LiftedSum(e: Engine, coordinates: JsValue, options: JsValue, x: real, y: real, h: real, t: real)
    requires Index(coordinates, 0) == Num(Finite(x)) && Index(coordinates, 1) == Num(Finite(y))
    requires Or(Index(coordinates, 2), NumberValue(0.0)) == Num(Finite(h))
    requires Or(Member(options, "translateZ"), NumberValue(0.0)) == Num(Finite(t))
    ensures Lifted(e, coordinates, options) == [Num(Finite(x)), Num(Finite(y)), Num(Finite(h + t))]
  {
    PlusOfNumbers(e, Finite(h), Finite(t));
  }

  /** A position's array gives its x and y, and `coordinates[2] || 0` gives its height or 0. */
  lemma PositionEntries(p: Position)
    ensures var coordinates := PositionValue(p);
      Index(coordinates, 0) == Num(Finite(p[0])) && Index(coordinates, 1) == Num(Finite(p[1])) &&
      Or(Index(coordinates, 2), NumberValue(0.0)) == Num(Finite(if |p| > 2 then p[2] else 0.0))
  {
    var coordinates := PositionValue(p);
    assert Index(coordinates, 2) == (if |p| > 2 then NumberValue(p[2]) else Undefined);
  }

  /** `translateZ || 0` is the lift: the numeric option, or 0 when it is falsy. */
  lemma LiftOption(options: JsValue, t: real)
    requires Member(options, "translateZ") == Num(Finite(t)) || (t == 0.0 && !Truthy(Member(options, "translateZ")))
    ensures Or(Member(options, "translateZ"), NumberValue(0.0)) == Num(Finite(t))
  {
  }


  /** Every referenced model is listed exactly once, in the order of its first use. */
  lemma ModelsListedOnce(e: Engine, d: Dialect, features: Option<seq<JsFeature>>, computeOptions: Option<JsFeature -> JsValue>)
    requires CollectionToPointInstances(e, d, features, computeOptions).Some?
    ensures var r := CollectionToPointInstances(e, d, features, computeOptions).value;
      var used := ModelsOf(r.features);
      (forall m :: m in r.models <==> m in used) && NoDuplicates(r.models) &&
      forall i, j :: 0 <= i < j < |r.models| ==> FirstIndex(used, r.models[i]) < FirstIndex(used, r.models[j])
  {
    var r := CollectionToPointInstances(e, d, features, computeOptions).value;
    DedupElements(ModelsOf(r.features));
    DedupFirstOccurrenceOrder(ModelsOf(r.features));
  }

  /** The two copies build the same positions, scales and rotations; they differ only in the
    * default model and the tag keys. */
  lemma DialectsAgreeOnGeometry(e: Engine, options: JsValue, f: JsFeature)
    requires f.properties.Some?
    ensures var s := ToInstance(e, Server, options, f).value;
      var v := ToInstance(e, Viewer, options, f).value;
      s.coordinates == v.coordinates && s.others == v.others && s.geometryType == v.geometryType &&
      s.properties.scale == v.properties.scale && s.properties.rotation == v.properties.rotation &&
      (Truthy(Member(options, "model")) ==> s.properties.model == v.properties.model) &&
      (!Truthy(Member(options, "model")) ==> s.properties.model == Str("model.glb") && v.properties.model == Str(""))
  {
  }
}
