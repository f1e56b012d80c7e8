/** The rules of the worker's pipeline tasks that do not depend on GDAL, PostGIS or the tilers:
  * the effective configuration (each worker task's defaults overridden by the pipeline's data), the
  * instance models collected from the rows, the levels of detail at which each polygon row is
  * turned into a polyhedral surface, the tiler options of the mesh task, and the input CRS of
  * the point-cloud task. Rows are dicts of column values; what the database and the polyhedron
  * conversion give for a row are hosts. */
module PipelineTasks {
  import opened Wrappers
  import opened Numbers
  import opened PyValues
  import opened Lists
  import opened GeoJson
  import opened Text
  import PyExpression
  import PyPolyhedron

  // ---------------------------------------------------------------------------------------
  // Configuration

  /** `default_config` of `create_point_instance_3dtiles`. */
  const PointInstanceDefaults: Dict := [
    ("model", PyStr("model.glb")), ("rotation", PyInt(0)), ("scale", PyInt(1)), ("translate_z", PyInt(0)),
    ("max_features_per_tile", PyInt(5000)), ("max_geometric_error", PyInt(1000))]

  /** `default_config` of `create_mesh_3dtiles`. */
  const MeshDefaults: Dict := [
    ("lower_limit_height", PyNone), ("upper_limit_height", PyNone), ("translate_z", PyInt(0)),
    ("max_features_per_tile", PyInt(1000)), ("double_sided", PyBool(false)), ("geometric_error_factor", PyInt(1)),
    ("max_geometric_error", PyInt(500)), ("remove_bottom_surface", PyBool(true)), ("add_lod", PyBool(false)),
    ("lod_max_simplify_tolerance", PyInt(5)), ("add_outline", PyBool(false))]

  /** `default_config` of `create_point_cloud_3dtiles`. */
  const PointCloudDefaults: Dict := [
    ("colorization_image", PyStr("")), ("sample_radius", PyNone), ("to_ellipsoidal_height", PyBool(false)),
    ("ground_classification", PyBool(false)), ("geometric_error_scale_factor", PyInt(1))]

  /** `default_config` of `create_reconstructed_mesh`. */
  const ReconstructionDefaults: Dict := [
    ("stage", PyStr("all")), ("feature_process_size", PyInt(2048)), ("depthmap_resolution", PyInt(2048))]

  /** `{**default_config, **pipeline_config}`, where the pipeline's `data` is used only when it
    * is truthy; unpacking a truthy value that is not a dict raises TypeError. */
  function EffectiveConfig(defaults: Dict, data: PyValue): Result<Dict>
  {
    if !Truthy(data) then Ok(Merge(defaults, []))
    else if data.PyDict? then Ok(Merge(defaults, data.entries))
    else Err(TypeError)
  }

  /** Every key reads the pipeline's value when the pipeline sets it and the default otherwise;
    * a falsy `data` leaves the defaults as they are. */
  lemma EffectiveConfigGet(defaults: Dict, data: PyValue, k: string)
    requires data.PyDict? ==> UniqueKeys(data.entries)
    ensures EffectiveConfig(defaults, data).Ok? <==> !Truthy(data) || data.PyDict?
    ensures !Truthy(data) ==> EffectiveConfig(defaults, data) == Ok(defaults)
    ensures EffectiveConfig(defaults, data).Ok? ==>
      Get(EffectiveConfig(defaults, data).value, k) ==
        if Truthy(data) && Get(data.entries, k).Some? then Get(data.entries, k) else Get(defaults, k)
  {
    if Truthy(data) && data.PyDict? {
      MergeGet(defaults, data.entries, k);
    }
  }

  /** The defaults' keys come first and in their order, whatever the pipeline overrides. */
  lemma {:induction false} MergeKeepsKeyOrder(a: Dict, b: Dict)
    ensures |Keys(a)| <= |Keys(Merge(a, b))| && Keys(Merge(a, b))[..|Keys(a)|] == Keys(a)
    decreases |b|
  {
    if |b| > 0 {
      var a' := SetItem(a, b[0].0, b[0].1);
      MergeKeepsKeyOrder(a', b[1..]);
      assert Keys(a')[..|Keys(a)|] == Keys(a);
    }
  }

  /** The configuration a task reads: every default key is there, so reading it never raises. */
  lemma ConfigHasDefaults(defaults: Dict, data: PyValue, k: string)
    requires data.PyDict? ==> UniqueKeys(data.entries)
    requires EffectiveConfig(defaults, data).Ok? && Get(defaults, k).Some?
    ensures Get(EffectiveConfig(defaults, data).value, k).Some?
  {
    EffectiveConfigGet(defaults, data, k);
  }

  /** `config['key']` of a configuration holding `key`. */
  function Setting(config: Dict, key: string): PyValue
  {
    if Get(config, key).Some? then Get(config, key).value else PyNone
  }

  /** `parse_expression(kind, config[key], {}, default_config[key])`: a setting that does not
    * depend on a feature. */
  function Evaluated(ip: Interpreter, kind: string, config: Dict, defaults: Dict, key: string): PyValue
  {
    PyExpression.ParseExpression(ip, kind, Setting(config, key), PyFeature(None, None), Setting(defaults, key))
  }

  // ---------------------------------------------------------------------------------------
  // Rows

  /** The loop's `feature_properties`: every column of the row except the geometry and the id. */
  function RowProperties(row: Dict, geometryColumn: string, fidColumn: string): Dict
  {
    if |row| == 0 then []
    else
      var n := |row| - 1;
      var before := RowProperties(row[..n], geometryColumn, fidColumn);
      if row[n].0 == geometryColumn || row[n].0 == fidColumn then before else SetItem(before, row[n].0, row[n].1)
  }

  lemma {:induction false} GetSnoc(d: Dict, e: (string, PyValue), k: string)
    ensures Get(d + [e], k) == if Get(d, k).Some? then Get(d, k) else if e.0 == k then Some(e.1) else None
  {
    if |d| > 0 {
      assert (d + [e])[1..] == d[1..] + [e];
      GetSnoc(d[1..], e, k);
    }
  }

  /** The properties are the row's columns without the geometry and the id. */
  lemma {:induction false} RowPropertiesGet(row: Dict, geometryColumn: string, fidColumn: string, k: string)
    requires UniqueKeys(row)
    ensures Get(RowProperties(row, geometryColumn, fidColumn), k) ==
      if k == geometryColumn || k == fidColumn then None else Get(row, k)
  {
    if |row| > 0 {
      var n := |row| - 1;
      assert UniqueKeys(row[..n]);
      RowPropertiesGet(row[..n], geometryColumn, fidColumn, k);
      assert row == row[..n] + [row[n]];
      GetSnoc(row[..n], row[n], k);
      if row[n].0 == k {
        assert Get(row[..n], k) == None by {
          GetAbsent(row[..n], k);
        }
      }
    }
  }

  // ---------------------------------------------------------------------------------------
  // Instance models

  /** `parse_expression('number', config['translate_z'], feature, default_config['translate_z'])`
    * over the feature with the geometry as the database gave it. */
  function TranslateZ(ip: Interpreter, config: Dict, f: PyFeature): PyValue
  {
    PyExpression.ParseExpression(ip, "number", Setting(config, "translate_z"), f, Setting(PointInstanceDefaults, "translate_z"))
  }

  /** The feature the loop builds for a row, from the row's columns and the GeoJSON geometry
    * the database gives for it (None when it gives none, and `json.loads(None)` raises):
    * `coordinates[2]` raises IndexError on a two-dimensional Point, `z` is that coordinate or 0
    * when it is falsy, and the rebuilt Point is `[x, y, z + translate_z]`, which raises
    * TypeError when the translation is not a number. A MultiPoint row raises IndexError with
    * fewer than three points and TypeError otherwise (a list plus a number); any other
    * geometry is taken to raise TypeError. */
  function PlacedFeature(ip: Interpreter, config: Dict, row: Dict, geometry: Option<Geometry>): Result<PyFeature>
  {
    var properties := Some(RowProperties(row, "geom", "gid"));
    match geometry
    case None => Err(TypeError)
    case Some(Point(p)) =>
      if |p| < 3 then Err(IndexError)
      else
        var z := if Truthy(JsonCoordinate(p[2])) then JsonCoordinate(p[2]) else PyInt(0);
        var t := TranslateZ(ip, config, PyFeature(properties, Some(Decoded(Point(p)))));
        var height :- AddToNumber(z, t);
        Ok(PyFeature(properties, Some(PlacedPoint(JsonCoordinate(p[0]), JsonCoordinate(p[1]), height))))
    case Some(MultiPoint(points)) => if |points| < 3 then Err(IndexError) else Err(TypeError)
    case Some(_) => Err(TypeError)
  }

  /** A row is placed exactly when its geometry is a Point with a height and the translation is
    * a number; the placed Point's height is the database height plus the translation, and it is
    * an int only when both are. */
  lemma PlacedFeatureSpec(ip: Interpreter, config: Dict, row: Dict, geometry: Option<Geometry>)
    ensures var r := PlacedFeature(ip, config, row, geometry);
      r.Ok? <==>
        geometry.Some? && geometry.value.Point? && |geometry.value.position| >= 3 &&
        NumOf(TranslateZ(ip, config, PyFeature(Some(RowProperties(row, "geom", "gid")), Some(Decoded(geometry.value))))).Some?
    ensures geometry.Some? && geometry.value.Point? && |geometry.value.position| < 3 ==>
      PlacedFeature(ip, config, row, geometry) == Err(IndexError)
    ensures var r := PlacedFeature(ip, config, row, geometry);
      r.Ok? ==>
        var p := geometry.value.position;
        var t := TranslateZ(ip, config, PyFeature(Some(RowProperties(row, "geom", "gid")), Some(Decoded(geometry.value))));
        r.value.properties == Some(RowProperties(row, "geom", "gid")) &&
        r.value.geometry.Some? && r.value.geometry.value.PlacedPoint? &&
        NumOf(r.value.geometry.value.z) == Some(Add(Finite(p[2]), NumOf(t).value)) &&
        (r.value.geometry.value.z.PyInt? <==> p[2] == p[2].Floor as real && !t.PyFloat?)
  {
    if geometry.Some? && geometry.value.Point? && |geometry.value.position| >= 3 {
      var p := geometry.value.position;
      if !Truthy(JsonCoordinate(p[2])) {
        assert p[2] == 0.0;
      }
    }
  }

  /** A translation written as a plain number is read with `float()`, so every placed height is
    * a float; with the default translation of 0 it is the database height itself, as a float,
    * whether or not that height is integral. */
  lemma PlacedHeightIsFloat(ip: Interpreter, config: Dict, row: Dict, p: Position)
    requires |p| >= 3
    requires Setting(config, "translate_z").PyInt? || Setting(config, "translate_z").PyFloat?
    ensures var r := PlacedFeature(ip, config, row, Some(Point(p)));
      r.Ok? && r.value.geometry.Some? && r.value.geometry.value.PlacedPoint? &&
      r.value.geometry.value.z == PyFloat(Add(Finite(p[2]), NumOf(Setting(config, "translate_z")).value))
    ensures Setting(config, "translate_z") == PyInt(0) ==>
      PlacedFeature(ip, config, row, Some(Point(p))).value.geometry.value.z == PyFloat(Finite(p[2]))
  {
    var f := PyFeature(Some(RowProperties(row, "geom", "gid")), Some(Decoded(Point(p))));
    PyExpression.ScalarCoercion(ip, "number", Setting(config, "translate_z"), f, Setting(PointInstanceDefaults, "translate_z"));
    PlacedFeatureSpec(ip, config, row, Some(Point(p)));
  }

  /** `parse_expression('string', config['model'], feature, default_config['model'])` */
  function ModelName(ip: Interpreter, config: Dict, f: PyFeature): PyValue
  {
    PyExpression.ParseExpression(ip, "string", Setting(config, "model"), f, PyStr("model.glb"))
  }

  /** The model a row names: its placed feature's model expression, or the row's exception. */
  function RowModelName(ip: Interpreter, config: Dict, row: Dict, geometryOf: Dict -> Option<Geometry>): Result<PyValue>
  {
    var f :- PlacedFeature(ip, config, row, geometryOf(row));
    Ok(ModelName(ip, config, f))
  }

  /** Results taken in order: all the values when every one is a value, otherwise the first
    * error, as a loop that raises at its first failing step ends. */
  function Collected<T>(rs: seq<Result<T>>): (r: Result<seq<T>>)
    ensures r.Ok? <==> forall i :: 0 <= i < |rs| ==> rs[i].Ok?
    ensures r.Ok? ==> |r.value| == |rs| && forall i :: 0 <= i < |rs| ==> r.value[i] == rs[i].value
    ensures r.Err? ==>
      exists k :: 0 <= k < |rs| && rs[k] == Err(r.error) && forall i :: 0 <= i < k ==> rs[i].Ok?
  {
    if |rs| == 0 then Ok([])
    else
      var n := |rs| - 1;
      assert forall i :: 0 <= i < n ==> rs[..n][i] == rs[i];
      var before :- Collected(rs[..n]);
      var last :- rs[n];
      Ok(before + [last])
  }

  /** When the results before `i` are all values and result `i` is an error, that error is the
    * outcome. */
  lemma FirstFailureDecides<T>(rs: seq<Result<T>>, i: nat)
    requires i < |rs|
    requires Collected(rs[..i]).Ok? && rs[i].Err?
    ensures Collected(rs) == Err(rs[i].error)
  {
    var r := Collected(rs);
    forall j | 0 <= j < i
      ensures rs[j].Ok?
    {
      assert rs[..i][j] == rs[j];
    }
    var k :| 0 <= k < |rs| && rs[k] == Err(r.error) && forall j :: 0 <= j < k ==> rs[j].Ok?;
    assert k == i;
  }

  /** Each row's name or exception, in row order. */
  function RowResults<T>(rows: seq<Dict>, nameOf: Dict -> Result<T>): (rs: seq<Result<T>>)
    ensures |rs| == |rows| && forall i :: 0 <= i < |rows| ==> rs[i] == nameOf(rows[i])
  {
    seq(|rows|, i requires 0 <= i < |rows| => nameOf(rows[i]))
  }

  /** Each row's model name or exception, in row order. */
  function RowModelNames(ip: Interpreter, config: Dict, rows: seq<Dict>, geometryOf: Dict -> Option<Geometry>): seq<Result<PyValue>>
  {
    RowResults(rows, row => RowModelName(ip, config, row, geometryOf))
  }

  /** The model names of the rows in order, or the exception of the first row that raises. */
  function ModelNames(ip: Interpreter, config: Dict, rows: seq<Dict>, geometryOf: Dict -> Option<Geometry>): Result<seq<PyValue>>
  {
    Collected(RowModelNames(ip, config, rows, geometryOf))
  }

  /** The loop that fills a list of names over the rows in order: each row's name is appended
    * when it is not in the list yet, and a row that raises ends the loop with its exception. */
  method CollectFirstSeen<T(==)>(rows: seq<Dict>, nameOf: Dict -> Result<T>) returns (r: Result<seq<T>>)
    ensures r.Ok? <==> forall i :: 0 <= i < |rows| ==> nameOf(rows[i]).Ok?
    ensures r.Ok? ==> r.value == Dedup(Collected(RowResults(rows, nameOf)).value)
    ensures r.Err? ==> r == Collected(RowResults(rows, nameOf))
  {
    ghost var names := RowResults(rows, nameOf);
    var models := [];
    for i := 0 to |rows|
      invariant Collected(names[..i]).Ok?
      invariant models == Dedup(Collected(names[..i]).value)
    {
      var name := nameOf(rows[i]);
      if name.Err? {
        FirstFailureDecides(names, i);
        return Err(name.error);
      }
      assert names[..i + 1][..i] == names[..i];
      if !(name.value in models) {
        models := models + [name.value];
      }
    }
    assert names[..|rows|] == names;
    r := Ok(models);
  }

  /** The `models` list of `create_point_instance_3dtiles`: each row's model name appended when
    * it is not in the list yet; the first row that raises ends the task with its exception. */
  method CollectModels(ip: Interpreter, config: Dict, rows: seq<Dict>, geometryOf: Dict -> Option<Geometry>)
    returns (r: Result<seq<PyValue>>)
    ensures r.Ok? <==> forall i :: 0 <= i < |rows| ==> RowModelName(ip, config, rows[i], geometryOf).Ok?
    ensures r.Ok? ==> r.value == Dedup(ModelNames(ip, config, rows, geometryOf).value)
    ensures r.Err? ==>
      exists k :: 0 <= k < |rows| && RowModelName(ip, config, rows[k], geometryOf) == Err(r.error) &&
        forall i :: 0 <= i < k ==> RowModelName(ip, config, rows[i], geometryOf).Ok?
  {
    r := CollectFirstSeen(rows, row => RowModelName(ip, config, row, geometryOf));
  }

  /** When no row raises, each row's model is collected once, and the models are in the order
    * the rows first name them. */
  lemma ModelsCollectedOnce(ip: Interpreter, config: Dict, rows: seq<Dict>, geometryOf: Dict -> Option<Geometry>)
    ensures ModelNames(ip, config, rows, geometryOf).Ok? ==>
      var names := ModelNames(ip, config, rows, geometryOf).value;
      var models := Dedup(names);
      NoDuplicates(models) &&
      (forall i :: 0 <= i < |rows| ==> names[i] in models) &&
      (forall m :: m in models ==> m in names) &&
      (forall i, j :: 0 <= i < j < |models| ==> FirstIndex(names, models[i]) < FirstIndex(names, models[j]))
  {
    if ModelNames(ip, config, rows, geometryOf).Ok? {
      var names := ModelNames(ip, config, rows, geometryOf).value;
      DedupElements(names);
      DedupFirstOccurrenceOrder(names);
    }
  }

  /** Without a `model` or `translate_z` setting, a table of three-dimensional points needs
    * exactly one model, `model.glb`. */
  lemma DefaultModelOnly(ip: Interpreter, data: PyValue, rows: seq<Dict>, geometryOf: Dict -> Option<Geometry>)
    requires data.PyDict? ==> UniqueKeys(data.entries)
    requires EffectiveConfig(PointInstanceDefaults, data).Ok?
    requires !Truthy(data) || (Get(data.entries, "model").None? && Get(data.entries, "translate_z").None?)
    requires |rows| > 0
    ensures var config := EffectiveConfig(PointInstanceDefaults, data).value;
      (forall i :: 0 <= i < |rows| ==>
         geometryOf(rows[i]).Some? && geometryOf(rows[i]).value.Point? && |geometryOf(rows[i]).value.position| >= 3) ==>
      ModelNames(ip, config, rows, geometryOf) == Ok(seq(|rows|, i => PyStr("model.glb")))
    ensures var names := ModelNames(ip, EffectiveConfig(PointInstanceDefaults, data).value, rows, geometryOf);
      names.Ok? ==> Dedup(names.value) == [PyStr("model.glb")]
  {
    var config := EffectiveConfig(PointInstanceDefaults, data).value;
    EffectiveConfigGet(PointInstanceDefaults, data, "model");
    EffectiveConfigGet(PointInstanceDefaults, data, "translate_z");
    var rs := RowModelNames(ip, config, rows, geometryOf);
    forall i | 0 <= i < |rs|
      ensures rs[i].Ok? ==> rs[i].value == PyStr("model.glb")
      ensures geometryOf(rows[i]).Some? && geometryOf(rows[i]).value.Point? && |geometryOf(rows[i]).value.position| >= 3 ==>
        rs[i].Ok?
    {
      DefaultRowModel(ip, config, rows[i], geometryOf);
    }
    CollectedConstant(rs, PyStr("model.glb"));
    if Collected(rs).Ok? {
      DedupConstant(Collected(rs).value, PyStr("model.glb"));
    }
  }

  /** One row under the default `model` and `translate_z`: a three-dimensional Point is placed,
    * and a placed row names `model.glb`. */
  lemma DefaultRowModel(ip: Interpreter, config: Dict, row: Dict, geometryOf: Dict -> Option<Geometry>)
    requires Setting(config, "model") == PyStr("model.glb") && Setting(config, "translate_z") == PyInt(0)
    ensures RowModelName(ip, config, row, geometryOf).Ok? ==> RowModelName(ip, config, row, geometryOf).value == PyStr("model.glb")
    ensures geometryOf(row).Some? && geometryOf(row).value.Point? && |geometryOf(row).value.position| >= 3 ==>
      RowModelName(ip, config, row, geometryOf).Ok?
  {
    var g := geometryOf(row);
    if g.Some? && g.value.Point? && |g.value.position| >= 3 {
      PlacedHeightIsFloat(ip, config, row, g.value.position);
    }
    var f := PlacedFeature(ip, config, row, g);
    if f.Ok? {
      PyExpression.ScalarCoercion(ip, "string", PyStr("model.glb"), f.value, PyStr("model.glb"));
    }
  }

  /** Results that are all the same value when they are values collect to copies of it. */
  lemma CollectedConstant<T>(rs: seq<Result<T>>, v: T)
    requires forall i :: 0 <= i < |rs| ==> rs[i].Ok? ==> rs[i].value == v
    ensures Collected(rs).Ok? ==> Collected(rs).value == seq(|rs|, i => v)
  {
  }

  lemma {:induction false} DedupConstant<T>(xs: seq<T>, v: T)
    requires |xs| > 0 && forall i :: 0 <= i < |xs| ==> xs[i] == v
    ensures Dedup(xs) == [v]
  {
    var n := |xs| - 1;
    if n > 0 {
      DedupConstant(xs[..n], v);
    }
  }

  /** A worked example: with the default translation, a Point row at height 5 whose model is
    * `["concat", ["func", "$minZ"], ".glb"]` names `5.0.glb`, since the height has become the
    * float `5 + 0.0`. */
  lemma HeightModelNameExample(ip: Interpreter, config: Dict, row: Dict, geometryOf: Dict -> Option<Geometry>)
    requires Setting(config, "translate_z") == PyInt(0)
    requires Setting(config, "model") ==
      PyList([PyStr("concat"), PyList([PyStr("func"), PyStr("$minZ")]), PyStr(".glb")])
    requires geometryOf(row) == Some(Point([1.0, 2.0, 5.0]))
    ensures RowModelName(ip, config, row, geometryOf) == Ok(PyStr("5.0.glb"))
  {
    PlacedHeightIsFloat(ip, config, row, [1.0, 2.0, 5.0]);
    var f := PlacedFeature(ip, config, row, geometryOf(row)).value;
    assert PyExpression.GetFunc(PyStr("$minZ"), f) == PyFloat(Finite(5.0));
    HeightFiveName(ip, f);
  }

  /** The model expression of the example over any feature whose least height is the float 5. */
  lemma HeightFiveName(ip: Interpreter, f: PyFeature)
    requires PyExpression.GetFunc(PyStr("$minZ"), f) == PyFloat(Finite(5.0))
    ensures PyExpression.ParseExpression(ip, "string",
      PyList([PyStr("concat"), PyList([PyStr("func"), PyStr("$minZ")]), PyStr(".glb")]), f, PyStr("model.glb"))
      == PyStr("5.0.glb")
  {
    var inner := PyList([PyStr("func"), PyStr("$minZ")]);
    assert PyExpression.ParseExpression(ip, "string", inner, f, PyNone) == PyFloat(Finite(5.0));
    assert Str(ip, PyFloat(Finite(5.0))) == "5.0" by {
      assert NatToString(5) == "5";
    }
    assert PyExpression.ParseExpression(ip, "string", PyStr(".glb"), f, PyNone) == PyStr(".glb");
    PyExpression.BinaryOperands(ip, "string", PyStr("concat"), inner, PyStr(".glb"), f);
    assert "5.0" + ".glb" == "5.0.glb";
  }

  // ---------------------------------------------------------------------------------------
  // Levels of detail of `polygons_to_polyhedrons`

  const MetersInDegrees: real := 111194.87428468118

  /** `lod`: 2 when `config.get('add_lod')` is truthy, otherwise 1. */
  function LevelCount(config: Dict): nat
  {
    if Get(config, "add_lod").Some? && Truthy(Get(config, "add_lod").value) then 2 else 1
  }

  /** The geometry asked of the database at a level: as it is, or simplified with a tolerance
    * in degrees. */
  datatype Query = Exact | Simplified(tolerance: Number)

  /** The last level reads the geometry as it is; an earlier level simplifies it with
    * `lod_max_simplify_tolerance / pow(2, level) / meters_in_degrees`, which raises TypeError
    * when the tolerance is not a number. */
  function LevelQuery(lod: nat, level: nat, lodMax: PyValue): Result<Query>
  {
    if level + 1 == lod then Ok(Exact)
    else if NumOf(lodMax).None? then Err(TypeError)
    else Ok(Simplified(Div(Div(NumOf(lodMax).value, Finite(Pow2(level) as real)), Finite(MetersInDegrees))))
  }

  /** One level is the unsimplified geometry alone, and the tolerance is never read then; with
    * two levels the first is simplified with the tolerance turned from meters into degrees. */
  lemma LevelsSpec(config: Dict, lodMax: PyValue)
    ensures LevelCount(config) == 1 || LevelCount(config) == 2
    ensures LevelCount(config) == 2 <==> Get(config, "add_lod").Some? && Truthy(Get(config, "add_lod").value)
    ensures LevelQuery(LevelCount(config), LevelCount(config) - 1, lodMax) == Ok(Exact)
    ensures LevelCount(config) == 2 && NumOf(lodMax).Some? && NumOf(lodMax).value.Finite? ==>
      LevelQuery(2, 0, lodMax) == Ok(Simplified(Finite(NumOf(lodMax).value.r / MetersInDegrees)))
    ensures LevelQuery(2, 0, lodMax).Err? <==> NumOf(lodMax).None?
  {
    if NumOf(lodMax).Some? && NumOf(lodMax).value.Finite? {
      var r := NumOf(lodMax).value.r;
      assert Pow2(0) == 1;
      assert Div(Finite(r), Finite(1.0)) == Finite(r);
    }
  }

  /** What one run of the conversion needs: the number of levels, the evaluated tolerance, the
    * geometry, id and level column names, and the host giving, for a row and a query, the WKT
    * of the polyhedral surface built from the returned geometry (or what that raises). */
  datatype Conversion = Conversion(lod: nat, lodMax: PyValue, geometryColumn: string, fidColumn: string,
                                   lodColumn: string, wktOf: (Dict, Query) -> Result<string>)

  /** The record inserted for a row at a level: its properties, the surface and the level. */
  function Record(c: Conversion, row: Dict, wkt: string, level: nat): Dict
  {
    SetItem(SetItem(RowProperties(row, c.geometryColumn, c.fidColumn), c.geometryColumn, PyStr(wkt)), c.lodColumn, PyInt(level))
  }

  /** One row at one level: nothing when the surface is empty (only logged), else its record. */
  function Cell(c: Conversion, row: Dict, level: nat): Result<Option<Dict>>
  {
    var query :- LevelQuery(c.lod, level, c.lodMax);
    var wkt :- c.wktOf(row, query);
    if wkt == PyPolyhedron.EmptySurface then Ok(None) else Ok(Some(Record(c, row, wkt, level)))
  }

  function Present(cell: Option<Dict>): seq<Dict>
  {
    if cell.Some? then [cell.value] else []
  }

  /** The records of a row's first `n` levels. */
  function RowInserts(c: Conversion, row: Dict, n: nat): Result<seq<Dict>>
  {
    if n == 0 then Ok([])
    else
      var before :- RowInserts(c, row, n - 1);
      var cell :- Cell(c, row, n - 1);
      Ok(before + Present(cell))
  }

  /** The records of all rows, row by row and level by level. */
  function Inserts(c: Conversion, rows: seq<Dict>): Result<seq<Dict>>
  {
    if |rows| == 0 then Ok([])
    else
      var before :- Inserts(c, rows[..|rows| - 1]);
      var last :- RowInserts(c, rows[|rows| - 1], c.lod);
      Ok(before + last)
  }

  /** An error at one row and level is an error of the whole chunk. */
  lemma {:induction false} RowErrorPersists(c: Conversion, row: Dict, n: nat, m: nat)
    requires n <= m && RowInserts(c, row, n).Err?
    ensures RowInserts(c, row, m).Err?
    decreases m
  {
    if n < m {
      RowErrorPersists(c, row, n, m - 1);
    }
  }

  lemma {:induction false} InsertsErrorPersists(c: Conversion, rows: seq<Dict>, n: nat)
    requires n <= |rows| && Inserts(c, rows[..n]).Err?
    ensures Inserts(c, rows).Err?
    decreases |rows|
  {
    if n < |rows| {
      var k := |rows| - 1;
      assert rows[..k][..n] == rows[..n];
      InsertsErrorPersists(c, rows[..k], n);
    } else {
      assert rows[..n] == rows;
    }
  }

  /** The bare `Exception` re-raised after any error of the conversion. */
  const ConversionFailed: string := "Exception"

  /** `polygons_to_polyhedrons` on one chunk of rows, with `lod` and the tolerance already
    * read from the configuration: the records inserted, committed only when no row raised. */
  method PolygonsToPolyhedrons(c: Conversion, rows: seq<Dict>) returns (r: Result<seq<Dict>>)
    requires c.lod >= 1
    ensures Inserts(c, rows).Ok? ==> r == Inserts(c, rows)
    ensures Inserts(c, rows).Err? ==> r == Err(ConversionFailed)
  {
    var inserted: seq<Dict> := [];
    for i := 0 to |rows|
      invariant Inserts(c, rows[..i]) == Ok(inserted)
    {
      var row := rows[i];
      var rowInserted: seq<Dict> := [];
      for level := 0 to c.lod
        invariant RowInserts(c, row, level) == Ok(rowInserted)
      {
        var query := LevelQuery(c.lod, level, c.lodMax);
        if query.Err? {
          CellErrorStops(c, rows, i, level);
          return Err(ConversionFailed);
        }
        var wkt := c.wktOf(row, query.value);
        if wkt.Err? {
          CellErrorStops(c, rows, i, level);
          return Err(ConversionFailed);
        }
        var cell := if wkt.value == PyPolyhedron.EmptySurface then None else Some(Record(c, row, wkt.value, level));
        assert Cell(c, row, level) == Ok(cell);
        RowStep(c, row, level, rowInserted, cell);
        ghost var previous := rowInserted;
        if wkt.value != PyPolyhedron.EmptySurface {
          rowInserted := rowInserted + [Record(c, row, wkt.value, level)];
        }
        assert rowInserted == previous + Present(cell);
      }
      NextRow(c, rows, i, inserted, rowInserted);
      inserted := inserted + rowInserted;
    }
    assert rows[..|rows|] == rows;
    r := Ok(inserted);
  }

  lemma RowStep(c: Conversion, row: Dict, level: nat, before: seq<Dict>, cell: Option<Dict>)
    requires RowInserts(c, row, level) == Ok(before) && Cell(c, row, level) == Ok(cell)
    ensures RowInserts(c, row, level + 1) == Ok(before + Present(cell))
  {
  }

  /** A row that raises at some level makes the whole chunk raise. */
  lemma CellErrorStops(c: Conversion, rows: seq<Dict>, i: nat, level: nat)
    requires i < |rows| && level < c.lod
    requires Inserts(c, rows[..i]).Ok? && RowInserts(c, rows[i], level).Ok? && Cell(c, rows[i], level).Err?
    ensures Inserts(c, rows).Err?
  {
    assert RowInserts(c, rows[i], level + 1).Err?;
    RowErrorPersists(c, rows[i], level + 1, c.lod);
    assert rows[..i + 1][..i] == rows[..i];
    InsertsErrorPersists(c, rows, i + 1);
  }

  lemma NextRow(c: Conversion, rows: seq<Dict>, i: nat, inserted: seq<Dict>, rowInserted: seq<Dict>)
    requires i < |rows|
    requires Inserts(c, rows[..i]) == Ok(inserted) && RowInserts(c, rows[i], c.lod) == Ok(rowInserted)
    ensures Inserts(c, rows[..i + 1]) == Ok(inserted + rowInserted)
  {
    assert rows[..i + 1][..i] == rows[..i];
  }

  /** Every record of a row carries a non-empty surface and a level below `lod`; a row gives
    * at most `lod` records, exactly `lod` when no level's surface is empty. */
  lemma {:induction false} RowInsertsSpec(c: Conversion, row: Dict, n: nat)
    requires c.geometryColumn != c.lodColumn
    requires RowInserts(c, row, n).Ok?
    ensures var v := RowInserts(c, row, n).value;
      |v| <= n &&
      (forall d :: d in v ==> WellLevelled(c, d, n))
  {
    if n > 0 {
      RowInsertsSpec(c, row, n - 1);
      var cell := Cell(c, row, n - 1).value;
      if cell.Some? {
        var wkt := c.wktOf(row, LevelQuery(c.lod, n - 1, c.lodMax).value).value;
        assert cell.value == Record(c, row, wkt, n - 1);
        assert WellLevelled(c, cell.value, n);
      }
      forall d | d in RowInserts(c, row, n - 1).value
        ensures WellLevelled(c, d, n)
      {
        assert WellLevelled(c, d, n - 1);
      }
    }
  }

  /** A record whose surface is not empty and whose level is below `n`. */
  predicate WellLevelled(c: Conversion, d: Dict, n: nat)
  {
    Get(d, c.geometryColumn).Some? && Get(d, c.geometryColumn).value.PyStr? &&
    Get(d, c.geometryColumn).value.s != PyPolyhedron.EmptySurface &&
    Get(d, c.lodColumn).Some? && Get(d, c.lodColumn).value.PyInt? && 0 <= Get(d, c.lodColumn).value.i < n
  }

  /** No empty surface is ever inserted, every record's level is one of the `lod` levels, and
    * the chunk inserts at most `lod` records per row. */
  lemma {:induction false} InsertsSpec(c: Conversion, rows: seq<Dict>)
    requires c.geometryColumn != c.lodColumn
    requires Inserts(c, rows).Ok?
    ensures var v := Inserts(c, rows).value;
      |v| <= |rows| * c.lod &&
      (forall d :: d in v ==> WellLevelled(c, d, c.lod))
  {
    if |rows| > 0 {
      var k := |rows| - 1;
      InsertsSpec(c, rows[..k]);
      RowInsertsSpec(c, rows[k], c.lod);
      var before := Inserts(c, rows[..k]).value;
      var last := RowInserts(c, rows[k], c.lod).value;
      assert Inserts(c, rows).value == before + last;
      forall d | d in before + last
        ensures WellLevelled(c, d, c.lod)
      {
        if d in before {
        } else {
          assert d in last;
        }
      }
      assert |before + last| <= k * c.lod + c.lod;
      NextMultiple(k, c.lod);
    }
  }

  lemma NextMultiple(k: nat, m: nat)
    ensures (k + 1) * m == k * m + m
  {
  }

  /** When no level of a row gives an empty surface, the row gives one record per level, in
    * level order. */
  lemma RowInsertsComplete(c: Conversion, row: Dict, n: nat)
    requires forall l :: 0 <= l < n ==> Cell(c, row, l).Ok? && Cell(c, row, l).value.Some?
    ensures RowInserts(c, row, n).Ok?
    ensures |RowInserts(c, row, n).value| == n
    ensures forall l :: 0 <= l < n ==> RowInserts(c, row, n).value[l] == Cell(c, row, l).value.value
  {
    var records := seq(n, l requires 0 <= l < n => Cell(c, row, l).value.value);
    RowInsertsAre(c, row, records);
  }

  /** The row's records are `records` when each level's cell holds the one at its index. */
  lemma {:induction false} RowInsertsAre(c: Conversion, row: Dict, records: seq<Dict>)
    requires forall l :: 0 <= l < |records| ==> Cell(c, row, l) == Ok(Some(records[l]))
    ensures RowInserts(c, row, |records|) == Ok(records)
  {
    var n := |records|;
    if n > 0 {
      var init := records[..n - 1];
      assert forall l :: 0 <= l < |init| ==> Cell(c, row, l) == Ok(Some(init[l]));
      RowInsertsAre(c, row, init);
      RowInsertsStep(c, row, n);
      DropLastSnoc(records);
    }
  }

  lemma DropLastSnoc<T>(s: seq<T>)
    requires |s| > 0
    ensures s[..|s| - 1] + [s[|s| - 1]] == s
  {
  }

  /** A level whose cell holds a record adds that record after the lower levels'. */
  lemma RowInsertsStep(c: Conversion, row: Dict, n: nat)
    requires n > 0 && RowInserts(c, row, n - 1).Ok?
    requires Cell(c, row, n - 1).Ok? && Cell(c, row, n - 1).value.Some?
    ensures RowInserts(c, row, n) == Ok(RowInserts(c, row, n - 1).value + [Cell(c, row, n - 1).value.value])
  {
  }

  // ---------------------------------------------------------------------------------------
  // Tiler options of `create_mesh_3dtiles`

  /** `xs` without the names in `drop`, in order. */
  function Without(xs: seq<string>, drop: seq<string>): (r: seq<string>)
    ensures forall x :: x in r <==> x in xs && x !in drop
  {
    if |xs| == 0 then []
    else
      var n := |xs| - 1;
      Without(xs[..n], drop) + (if xs[n] in drop then [] else [xs[n]])
  }

  lemma {:induction false} WithoutAppend(a: seq<string>, b: seq<string>, drop: seq<string>)
    ensures Without(a + b, drop) == Without(a, drop) + Without(b, drop)
    decreases |b|
  {
    if |b| > 0 {
      var n := |b| - 1;
      assert (a + b)[..|a + b| - 1] == a + b[..n];
      assert (a + b)[|a + b| - 1] == b[n];
      WithoutAppend(a, b[..n], drop);
    } else {
      assert a + b == a;
    }
  }

  /** The columns of the pipeline table: `id`, the source columns but the geometry and the id, then
    * the geometry and the level. */
  function TaskColumns(source: seq<string>, geometryColumn: string, fidColumn: string, lodColumn: string): seq<string>
  {
    ["id"] + Without(source, [geometryColumn, fidColumn]) + [geometryColumn, lodColumn]
  }

  /** `attributes`: the pipeline table's columns but the geometry, the id and the level. */
  function Attributes(columns: seq<string>, geometryColumn: string, fidColumn: string, lodColumn: string): seq<string>
  {
    Without(columns, [geometryColumn, fidColumn, lodColumn])
  }

  /** The attributes passed to pg2b3dm are the pipeline table's `id` followed by the source's own
    * attribute columns in their order: neither the geometry, the source id nor the level. */
  lemma AttributesOfTaskTable(source: seq<string>, geometryColumn: string, fidColumn: string, lodColumn: string)
    requires "id" != geometryColumn && "id" != fidColumn && "id" != lodColumn
    ensures Attributes(TaskColumns(source, geometryColumn, fidColumn, lodColumn), geometryColumn, fidColumn, lodColumn) ==
      ["id"] + Without(source, [geometryColumn, fidColumn, lodColumn])
  {
    var drop := [geometryColumn, fidColumn, lodColumn];
    var kept := Without(source, [geometryColumn, fidColumn]);
    var tail := [geometryColumn, lodColumn];
    assert TaskColumns(source, geometryColumn, fidColumn, lodColumn) == (["id"] + kept) + tail;
    WithoutAppend(["id"] + kept, tail, drop);
    WithoutAppend(["id"], kept, drop);
    assert Without(tail, drop) == [];
    assert Without(["id"], drop) == ["id"] by {
      assert ["id"][..0] == [];
      assert Without(["id"][..0], drop) == [];
    }
    WithoutTwice(source, [geometryColumn, fidColumn], drop);
  }

  lemma {:induction false} WithoutTwice(xs: seq<string>, first: seq<string>, drop: seq<string>)
    requires forall x :: x in first ==> x in drop
    ensures Without(Without(xs, first), drop) == Without(xs, drop)
  {
    if |xs| > 0 {
      var n := |xs| - 1;
      WithoutTwice(xs[..n], first, drop);
      var tail := if xs[n] in first then [] else [xs[n]];
      WithoutAppend(Without(xs[..n], first), tail, drop);
      if xs[n] !in first {
        assert Without(tail, drop) == (if xs[n] in drop then [] else [xs[n]]) by {
          assert tail[..0] == [];
        }
      }
    }
  }

  /** `double_sided`: the text `true` when the setting is truthy, else `false`. */
  function DoubleSided(config: Dict): string
  {
    if Truthy(Setting(config, "double_sided")) then "true" else "false"
  }

  /** The level column handed to pg2b3dm: none unless levels of detail were added. */
  function LodColumnArgument(config: Dict, lodColumn: string): Option<string>
  {
    if Get(config, "add_lod").None? || !Truthy(Get(config, "add_lod").value) then None else Some(lodColumn)
  }

  /** What the `pg2b3dm` call of `create_mesh_3dtiles` hands over, of the arguments the model
    * keeps: the attributes, the `double_sided` text, the level column and `add_outline`. */
  datatype TilerCall = TilerCall(attributes: seq<string>, doubleSided: string, lodColumn: Option<string>,
                                 addOutline: PyValue)

  /** The parameters `pg2b3dm` declares, none with a default: the table, the output path, the
    * attributes, the two errors, the geometry column, the feature limit, `double_sided`, the id
    * column and the table object. */
  const TilerParameters: nat := 10

  /** The positional arguments `create_mesh_3dtiles` passes: those ten, then the level column
    * and `add_outline`. */
  const TilerArguments: nat := 12

  /** Calling a tiler declaring `parameters` parameters with `count` positional arguments:
    * any other count raises TypeError before the body runs. */
  function CallTiler(parameters: nat, count: nat, call: TilerCall): (r: Result<TilerCall>)
    ensures r.Ok? <==> count == parameters
    ensures r.Err? ==> r.error == TypeError
  {
    if count != parameters then Err(TypeError) else Ok(call)
  }

  /** The arguments built from the effective configuration and the pipeline table's columns. */
  function MeshTilerCall(config: Dict, columns: seq<string>, geometryColumn: string, fidColumn: string,
                         lodColumn: string): TilerCall
  {
    TilerCall(Attributes(columns, geometryColumn, fidColumn, lodColumn), DoubleSided(config),
              LodColumnArgument(config, lodColumn), Setting(config, "add_outline"))
  }

  /** The call as written: twelve arguments to the ten-parameter `pg2b3dm`. */
  function MeshTilerAsWritten(config: Dict, columns: seq<string>, geometryColumn: string, fidColumn: string,
                              lodColumn: string): Result<TilerCall>
  {
    CallTiler(TilerParameters, TilerArguments, MeshTilerCall(config, columns, geometryColumn, fidColumn, lodColumn))
  }

  /** The call as intended: a `pg2b3dm` that also declares the level column and `add_outline`. */
  function MeshTilerCorrected(config: Dict, columns: seq<string>, geometryColumn: string, fidColumn: string,
                              lodColumn: string): Result<TilerCall>
  {
    CallTiler(TilerArguments, TilerArguments, MeshTilerCall(config, columns, geometryColumn, fidColumn, lodColumn))
  }

  /** As written, every mesh pipeline that reaches the tiler fails there with TypeError, whatever
    * its configuration, so no level column and no outline flag ever reach pg2b3dm. */
  lemma MeshTilerAsWrittenRaises(config: Dict, columns: seq<string>, geometryColumn: string, fidColumn: string,
                                 lodColumn: string)
    ensures MeshTilerAsWritten(config, columns, geometryColumn, fidColumn, lodColumn) == Err(TypeError)
  {
  }

  /** With the corrected call, pg2b3dm is told of the level column exactly when the rows were
    * converted at two levels, and gets the attributes, the double-sided text and `add_outline`;
    * the mesh defaults give one level, one-sided tiles, no level column and no outline. */
  lemma MeshOptionsAgree(config: Dict, columns: seq<string>, geometryColumn: string, fidColumn: string,
                         lodColumn: string)
    ensures var r := MeshTilerCorrected(config, columns, geometryColumn, fidColumn, lodColumn);
      r.Ok? &&
      (r.value.lodColumn.Some? <==> LevelCount(config) == 2) &&
      (r.value.lodColumn.Some? ==> r.value.lodColumn.value == lodColumn) &&
      r.value.attributes == Attributes(columns, geometryColumn, fidColumn, lodColumn) &&
      r.value.doubleSided == DoubleSided(config) &&
      r.value.addOutline == Setting(config, "add_outline")
    ensures config == MeshDefaults ==>
      var r := MeshTilerCorrected(config, columns, geometryColumn, fidColumn, lodColumn);
      LevelCount(config) == 1 && r.value.doubleSided == "false" && r.value.lodColumn.None? &&
      r.value.addOutline == PyBool(false)
  {
    if config == MeshDefaults {
      MeshDefaultFlag("add_lod");
      MeshDefaultFlag("double_sided");
      MeshDefaultFlag("add_outline");
    }
  }

  /** The flags of the mesh defaults are all `False`. */
  lemma MeshDefaultFlag(key: string)
    requires key == "add_lod" || key == "double_sided" || key == "add_outline"
    ensures Get(MeshDefaults, key) == Some(PyBool(false))
  {
  }

  // ---------------------------------------------------------------------------------------
  // Input CRS of `create_point_cloud_3dtiles`

  const UnrecognisedCrs: string := "Not recognized Point Cloud CRS"

  /** `crs_in`: the upload result's `horizontal_epsg` when truthy, else its `epsg` when truthy;
    * either key missing from a truthy upload result raises KeyError, a truthy upload result
    * that is not a dict TypeError. */
  function CrsCandidate(uploadResult: PyValue): Result<PyValue>
  {
    if !Truthy(uploadResult) then Ok(PyNone)
    else if !uploadResult.PyDict? then Err(TypeError)
    else
      var horizontal := Get(uploadResult.entries, "horizontal_epsg");
      if horizontal.None? then Err(KeyError)
      else if Truthy(horizontal.value) then Ok(horizontal.value)
      else
        var epsg := Get(uploadResult.entries, "epsg");
        if epsg.None? then Err(KeyError)
        else if Truthy(epsg.value) then Ok(epsg.value)
        else Ok(PyNone)
  }

  /** `f'{crs_in}'`, or the error raised when no CRS was recognised. */
  function CrsIn(ip: Interpreter, uploadResult: PyValue): Result<string>
  {
    var crs :- CrsCandidate(uploadResult);
    if !Truthy(crs) then Err(UnrecognisedCrs) else Ok(Str(ip, crs))
  }

  /** The horizontal code is preferred to the compound one, which is used only when the
    * horizontal one is falsy; with neither (or no upload result) the worker task stops. */
  lemma CrsInSpec(ip: Interpreter, entries: Dict)
    requires Get(entries, "horizontal_epsg").Some? && Get(entries, "epsg").Some?
    ensures var h := Get(entries, "horizontal_epsg").value;
      var e := Get(entries, "epsg").value;
      entries != [] &&
      (Truthy(h) ==> CrsIn(ip, PyDict(entries)) == Ok(Str(ip, h))) &&
      (!Truthy(h) && Truthy(e) ==> CrsIn(ip, PyDict(entries)) == Ok(Str(ip, e))) &&
      (!Truthy(h) && !Truthy(e) ==> CrsIn(ip, PyDict(entries)) == Err(UnrecognisedCrs))
  {
  }

  /** A falsy upload result never gives a CRS, and a CRS is only ever the text of a truthy code. */
  lemma CrsInNeedsCode(ip: Interpreter, uploadResult: PyValue)
    ensures !Truthy(uploadResult) ==> CrsIn(ip, uploadResult) == Err(UnrecognisedCrs)
    ensures CrsIn(ip, uploadResult).Ok? ==>
      CrsCandidate(uploadResult).Ok? && Truthy(CrsCandidate(uploadResult).value) &&
      CrsIn(ip, uploadResult).value == Str(ip, CrsCandidate(uploadResult).value)
  {
  }
}
