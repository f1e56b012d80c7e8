/** The legacy server's point-instance workflow: after the instance table is filled,
  * `i3dm.export` turns it into a 3D Tiles tileset of instanced models; `tileset.json` is given
  * the attribute ranges as `properties`, every model the instances use is copied next to the
  * tiles, and a preview link is logged. Files, the child process and `path.join` are parameters,
  * as in the mesh workflow. */
module PointInstanceWorkflow {
  import opened Wrappers
  import opened Text
  import opened Lists
  import opened JsValues
  import opened Scripts
  import opened MeshWorkflow
  import Info
  import Instances
  import JsExpression
  import Table

  /** The members of the connection string, in the order the tool is given them. */
  function ConnectionFields(e: Engine, db: DbConfig): seq<string>
  {
    ["Host=" + ToString(e, db.host), "Username=" + ToString(e, db.user), "password=" + ToString(e, db.password),
     "Port=" + ToString(e, db.port), "Database=" + ToString(e, db.database)]
  }

  /** `"Host=…;Username=…;password=…;Port=…;Database=…"`, the double quotes part of the text. */
  function ConnectionString(e: Engine, db: DbConfig): string
  {
    "\"" + Join(ConnectionFields(e, db), ";") + "\""
  }

  /** The `i3dm.export` command line; like the mesh one, it reads `config.maxGeometricError`
    * without `?.`. */
  function I3dmArgv(h: Hosts, info: Info.TableInfo, config: JsValue): Result<seq<JsValue>>
  {
    if Nullish(config) then Err(TypeErrorReason)
    else Ok([
      Str("i3dm.export"),
      Str("-c"), Str(ConnectionString(h.e, h.db)),
      Str("-t"), Str(info.tableName),
      Str("-o"), Str(info.output),
      Str("-f"), Str("cesium"),
      Str("-g"), Str(ToString(h.e, Or(Member(config, "maxGeometricError"), NumberValue(5000.0)))),
      Str("--use_external_model"), Bool(true),
      Str("--use_scale_non_uniform"), Bool(false),
      Str("--geometrycolumn"), Str(info.geometryName),
      Str("--max_features_per_tile"), Or(Member(config, "maxFeaturesPerTile"), NumberValue(1000.0)),
      Str("--use_gpu_instancing"), Bool(false),
      Str("--boundingvolume_heights"), Str("0,10")])
  }

  /** How many models at the front are strings: `path.join` throws at the first that is not. */
  function NamedPrefix(models: seq<JsValue>): (k: nat)
    ensures k <= |models|
    ensures forall i :: 0 <= i < k ==> models[i].Str?
    ensures k < |models| ==> !models[k].Str?
  {
    if |models| == 0 || !models[0].Str? then 0 else 1 + NamedPrefix(models[1..])
  }

  /** `fs.copyFileSync(path.join('static', 'glb', model), path.join(output, 'content', model))` */
  function CopyOf(h: Hosts, output: string, model: string): Effect
  {
    Copy(h.pathJoin(["static", "glb", model]), h.pathJoin([output, "content", model]))
  }

  /** The copies `models.forEach` makes before it stops: all of them, or those before the first
    * model that is not a string. */
  function Copies(h: Hosts, output: string, models: seq<JsValue>): seq<Effect>
  {
    var k := NamedPrefix(models);
    seq(k, i requires 0 <= i < k => CopyOf(h, output, models[i].s))
  }

  /** `(models || []).forEach(...)`: one copy per model, in order, until one throws. */
  method CopyModels(h: Hosts, output: string, models: seq<JsValue>) returns (copies: seq<Effect>, threw: bool)
    ensures copies == Copies(h, output, models)
    ensures threw <==> exists i :: 0 <= i < |models| && !models[i].Str?
  {
    copies, threw := [], false;
    var i := 0;
    while i < |models| && !threw
      invariant i <= NamedPrefix(models)
      invariant threw ==> i == NamedPrefix(models) < |models|
      invariant copies == seq(i, j requires 0 <= j < i => CopyOf(h, output, models[j].s))
      decreases |models| - i, if threw then 0 else 1
    {
      match models[i] {
      case Str(model) =>
        copies := copies + [CopyOf(h, output, model)];
        i := i + 1;
      case _ =>
        threw := true;
      }
    }
    if !threw {
      assert i == |models|;
    }
  }

  /** `fromPointInstancesToTileset({collection, config})`: the table information, the models of
    * the instances (computed with the same options as the table rows), then the run. */
  function FromPointInstancesToTileset(h: Hosts, filtrex: JsExpression.Filtrex, features: Option<seq<JsFeature>>,
                                       config: JsValue, events: seq<ProcessEvent>, read: Result<Props>): Outcome
  {
    match Info.GetInfo(h.e, features, config)
    case Err(reason) => Outcome([], Rejected(reason))
    case Ok(info) =>
      match Instances.CollectionToPointInstances(h.e, Instances.Server, features, Some(Table.PointOptions(filtrex, h.e, config)))
      case None => Outcome([], Rejected(TypeErrorReason))
      case Some(collection) => TileInstances(h, info, collection.models, config, events, read)
  }

  /** Everything after the models are known: remove the output, run `i3dm.export`, and once it
    * has exited patch the tileset, copy the models and log the preview link. */
  function TileInstances(h: Hosts, info: Info.TableInfo, models: seq<JsValue>, config: JsValue,
                         events: seq<ProcessEvent>, read: Result<Props>): Outcome
  {
    match I3dmArgv(h, info, config)
    case Err(reason) => Outcome([Remove(info.output)], Rejected(reason))
    case Ok(argv) =>
      var started := [Remove(info.output), Execute(argv)];
      match SettlementOf(events)
      case Resolved(_) =>
        (match read
         case Err(reason) => Outcome(started, Rejected(reason))
         case Ok(tileset) =>
           var written := started + [WriteTileset(TilesetPath(h, info.output), PatchTileset(tileset, info.properties))] +
                          Copies(h, info.output, models);
           if NamedPrefix(models) < |models| then Outcome(written, Rejected(TypeErrorReason))
           else Outcome(written + [Preview(PreviewLink(info.tableName))], Resolved(Bool(true))))
      case other => Outcome(started, other)
  }

  /** The models of the instances are always model file names (the configured expression's text
    * or the default model), each listed once. */
  lemma ModelsAreNames(e: Engine, filtrex: JsExpression.Filtrex, features: Option<seq<JsFeature>>, config: JsValue)
    requires Instances.CollectionToPointInstances(e, Instances.Server, features, Some(Table.PointOptions(filtrex, e, config))).Some?
    ensures var models := Instances.CollectionToPointInstances(e, Instances.Server, features,
                                                              Some(Table.PointOptions(filtrex, e, config))).value.models;
      NamedPrefix(models) == |models| && NoDuplicates(models)
  {
    var options := Some(Table.PointOptions(filtrex, e, config));
    var fs := if features.Some? then features.value else [];
    var r := Instances.CollectionToPointInstances(e, Instances.Server, features, options).value;
    assert r == Instances.CollectionToPointInstances(e, Instances.Server, Some(fs), options).value;
    Instances.InstancesCorrespond(e, Instances.Server, fs, options);
    Instances.ModelsListedOnce(e, Instances.Server, features, options);
    var used := Instances.ModelsOf(r.features);
    forall j | 0 <= j < |used|
      ensures used[j].Str?
    {
      InstanceModelIsName(e, filtrex, config, fs[j]);
    }
    forall i | 0 <= i < |r.models|
      ensures r.models[i].Str?
    {
      assert r.models[i] in used;
    }
    NamedPrefixAll(r.models);
  }

  /** An instance's model is the text of the configured expression when that text is not empty,
    * and the default model otherwise. */
  lemma InstanceModelIsName(e: Engine, filtrex: JsExpression.Filtrex, config: JsValue, f: JsFeature)
    requires f.properties.Some?
    ensures var model := Instances.ToInstance(e, Instances.Server, Table.PointOptions(filtrex, e, config)(f), f).value.properties.model;
      var text := JsExpression.ParseStringExpression(filtrex, e, Member(config, "model"), f);
      model.Str? && model == (if Truthy(text) then text else Str(Instances.DefaultModel(Instances.Server)))
  {
    var o := Table.PointOptions(filtrex, e, config)(f);
    var m := JsExpression.ParseStringExpression(filtrex, e, Member(config, "model"), f);
    var fields := [("scale", Table.Numeric(filtrex, e, config, "scale", f)),
                   ("rotation", Table.Numeric(filtrex, e, config, "rotation", f)),
                   ("translateZ", Table.Numeric(filtrex, e, config, "translateZ", f)),
                   ("model", m)];
    assert o == Obj(fields);
    assert Lookup(fields[3..], "model") == m;
    assert Lookup(fields[2..], "model") == m;
    assert Lookup(fields[1..], "model") == m;
    assert Member(o, "model") == m;
  }

  lemma {:induction false} NamedPrefixAll(models: seq<JsValue>)
    requires forall i :: 0 <= i < |models| ==> models[i].Str?
    ensures NamedPrefix(models) == |models|
  {
    if |models| > 0 {
      NamedPrefixAll(models[1..]);
    }
  }

  /** On success every model the instances use is copied once, from `static/glb` to the tiles'
    * `content` directory, after the tileset is patched and before the preview link is logged. */
  lemma PointInstanceSuccess(h: Hosts, filtrex: JsExpression.Filtrex, features: Option<seq<JsFeature>>,
                             config: JsValue, events: seq<ProcessEvent>, tileset: Props)
    requires Info.GetInfo(h.e, features, config).Ok? && !Nullish(config) && SettlementOf(events).Resolved?
    requires Instances.CollectionToPointInstances(h.e, Instances.Server, features, Some(Table.PointOptions(filtrex, h.e, config))).Some?
    ensures var info := Info.GetInfo(h.e, features, config).value;
      var models := Instances.CollectionToPointInstances(h.e, Instances.Server, features,
                                                         Some(Table.PointOptions(filtrex, h.e, config))).value.models;
      var o := FromPointInstancesToTileset(h, filtrex, features, config, events, Ok(tileset));
      o.result == Resolved(Bool(true)) && |o.effects| == 4 + |models| &&
      o.effects[0] == Remove(info.output) &&
      o.effects[2] == WriteTileset(TilesetPath(h, info.output), PatchTileset(tileset, info.properties)) &&
      (forall i :: 0 <= i < |models| ==>
        models[i].Str? && o.effects[3 + i] == Copy(h.pathJoin(["static", "glb", models[i].s]), h.pathJoin([info.output, "content", models[i].s]))) &&
      NoDuplicates(models) &&
      o.effects[3 + |models|] == Preview("/preview/?" + info.tableName)
  {
    var info := Info.GetInfo(h.e, features, config).value;
    var models := Instances.CollectionToPointInstances(h.e, Instances.Server, features,
                                                       Some(Table.PointOptions(filtrex, h.e, config))).value.models;
    ModelsAreNames(h.e, filtrex, features, config);
    TileInstancesSuccess(h, info, models, config, events, tileset);
    RunsAfterModels(h, filtrex, features, config, events, Ok(tileset));
  }

  /** A proof step: once the table information and the instances are built, the workflow is
    * `TileInstances` over the instances' models. */
  lemma RunsAfterModels(h: Hosts, filtrex: JsExpression.Filtrex, features: Option<seq<JsFeature>>,
                        config: JsValue, events: seq<ProcessEvent>, read: Result<Props>)
    requires Info.GetInfo(h.e, features, config).Ok?
    requires Instances.CollectionToPointInstances(h.e, Instances.Server, features, Some(Table.PointOptions(filtrex, h.e, config))).Some?
    ensures FromPointInstancesToTileset(h, filtrex, features, config, events, read) ==
      TileInstances(h, Info.GetInfo(h.e, features, config).value,
                    Instances.CollectionToPointInstances(h.e, Instances.Server, features,
                                                         Some(Table.PointOptions(filtrex, h.e, config))).value.models,
                    config, events, read)
  {
  }

  lemma TileInstancesSuccess(h: Hosts, info: Info.TableInfo, models: seq<JsValue>, config: JsValue,
                             events: seq<ProcessEvent>, tileset: Props)
    requires !Nullish(config) && SettlementOf(events).Resolved? && NamedPrefix(models) == |models|
    ensures var o := TileInstances(h, info, models, config, events, Ok(tileset));
      o.result == Resolved(Bool(true)) && |o.effects| == 4 + |models| &&
      o.effects[0] == Remove(info.output) &&
      o.effects[2] == WriteTileset(TilesetPath(h, info.output), PatchTileset(tileset, info.properties)) &&
      (forall i :: 0 <= i < |models| ==>
        o.effects[3 + i] == Copy(h.pathJoin(["static", "glb", models[i].s]), h.pathJoin([info.output, "content", models[i].s]))) &&
      o.effects[3 + |models|] == Preview("/preview/?" + info.tableName)
  {
    var copies := Copies(h, info.output, models);
    var write := WriteTileset(TilesetPath(h, info.output), PatchTileset(tileset, info.properties));
    var argv := I3dmArgv(h, info, config).value;
    var effects := [Remove(info.output), Execute(argv), write] + copies + [Preview(PreviewLink(info.tableName))];
    assert TileInstances(h, info, models, config, events, Ok(tileset)) == Outcome(effects, Resolved(Bool(true)));
    assert |copies| == |models|;
    SuccessLayout(Remove(info.output), Execute(argv), write, copies, Preview(PreviewLink(info.tableName)));
    forall i | 0 <= i < |models|
      ensures copies[i] == Copy(h.pathJoin(["static", "glb", models[i].s]), h.pathJoin([info.output, "content", models[i].s]))
    {
    }
  }

  /** Where each effect of a successful run sits. */
  lemma SuccessLayout(remove: Effect, execute: Effect, write: Effect, copies: seq<Effect>, preview: Effect)
    ensures var effects := [remove, execute, write] + copies + [preview];
      |effects| == 4 + |copies| && effects[0] == remove && effects[2] == write &&
      (forall i :: 0 <= i < |copies| ==> effects[3 + i] == copies[i]) && effects[3 + |copies|] == preview
  {
  }

  /** The output directory is removed first and only once; the workflow succeeds exactly when
    * the configuration, the tool's exit, the tileset file and the model names allow it, and stays
    * pending while the tool runs; nothing is copied or logged before the tool has exited. */
  lemma PointInstanceSettles(h: Hosts, info: Info.TableInfo, models: seq<JsValue>, config: JsValue,
                             events: seq<ProcessEvent>, read: Result<Props>)
    ensures var o := TileInstances(h, info, models, config, events, read);
      |o.effects| >= 1 && o.effects[0] == Remove(info.output) &&
      (forall i :: 1 <= i < |o.effects| ==> !o.effects[i].Remove?) &&
      (o.result.Resolved? <==>
        (!Nullish(config) && SettlementOf(events).Resolved? && read.Ok? &&
         forall i :: 0 <= i < |models| ==> models[i].Str?)) &&
      (o.result.Pending? <==> !Nullish(config) && SettlementOf(events).Pending?) &&
      (!SettlementOf(events).Resolved? ==> forall i :: 0 <= i < |o.effects| ==> o.effects[i].Remove? || o.effects[i].Execute?)
  {
    var o := TileInstances(h, info, models, config, events, read);
    if !Nullish(config) && SettlementOf(events).Resolved? && read.Ok? {
      var copies := Copies(h, info.output, models);
      assert forall i :: 0 <= i < |copies| ==> copies[i].Copy?;
      assert forall i :: 3 <= i < 3 + |copies| ==> o.effects[i] == copies[i - 3];
    }
  }

  /** The connection string is quoted and lists host, user, password, port and database in that
    * order: split at `;` it gives the five `key=value` members back when no value holds a `;`. */
  lemma {:induction false} ConnectionStringFields(e: Engine, db: DbConfig)
    requires forall v :: v in [db.host, db.user, db.password, db.port, db.database] ==> ';' !in ToString(e, v)
    ensures var c := ConnectionString(e, db);
      |c| >= 2 && c[0] == '"' && c[|c| - 1] == '"' &&
      Split(c[1..|c| - 1], ';') == ["Host=" + ToString(e, db.host), "Username=" + ToString(e, db.user),
                                    "password=" + ToString(e, db.password), "Port=" + ToString(e, db.port),
                                    "Database=" + ToString(e, db.database)]
  {
    var fields := ConnectionFields(e, db);
    var c := ConnectionString(e, db);
    assert c[1..|c| - 1] == Join(fields, ";");
    forall i | 0 <= i < |fields|
      ensures ';' !in fields[i]
    {
      var v := [db.host, db.user, db.password, db.port, db.database][i];
      assert v in [db.host, db.user, db.password, db.port, db.database];
      var key := ["Host=", "Username=", "password=", "Port=", "Database="][i];
      assert fields[i] == key + ToString(e, v);
    }
    JoinSplit(fields, ';');
  }

  /** The defaults of the export: geometric error 5000 and 1000 features per tile; external
    * models on, non-uniform scale and GPU instancing off, and the `cesium` format. */
  lemma I3dmArgvDefaults(h: Hosts, info: Info.TableInfo, config: JsValue)
    requires !Nullish(config)
    ensures I3dmArgv(h, info, config).Ok? && |I3dmArgv(h, info, config).value| == 23
    ensures var a := I3dmArgv(h, info, config).value;
      a[0] == Str("i3dm.export") && a[2] == Str(ConnectionString(h.e, h.db)) &&
      a[8] == Str("cesium") && a[12] == Bool(true) && a[14] == Bool(false) && a[20] == Bool(false) &&
      (!Truthy(Member(config, "maxGeometricError")) ==> a[10] == Str("5000")) &&
      (!Truthy(Member(config, "maxFeaturesPerTile")) ==> a[18] == NumberValue(1000.0)) &&
      (Truthy(Member(config, "maxFeaturesPerTile")) ==> a[18] == Member(config, "maxFeaturesPerTile"))
  {
    I3dmArgvFixed(h, info, config);
    I3dmArgvSwitches(h, info, config);
    I3dmArgvConfigured(h, info, config);
    DefaultErrorText(h.e);
  }

  /** The tool, its connection string and the output format. */
  lemma I3dmArgvFixed(h: Hosts, info: Info.TableInfo, config: JsValue)
    requires !Nullish(config)
    ensures I3dmArgv(h, info, config).Ok? && |I3dmArgv(h, info, config).value| == 23
    ensures var a := I3dmArgv(h, info, config).value;
      a[0] == Str("i3dm.export") && a[2] == Str(ConnectionString(h.e, h.db)) && a[8] == Str("cesium")
  {
  }

  /** The switches no setting changes. */
  lemma I3dmArgvSwitches(h: Hosts, info: Info.TableInfo, config: JsValue)
    requires !Nullish(config)
    ensures I3dmArgv(h, info, config).Ok? && |I3dmArgv(h, info, config).value| == 23
    ensures var a := I3dmArgv(h, info, config).value;
      a[12] == Bool(true) && a[14] == Bool(false) && a[20] == Bool(false)
  {
  }

  /** The geometric error and the features per tile, from the settings or their defaults. */
  lemma I3dmArgvConfigured(h: Hosts, info: Info.TableInfo, config: JsValue)
    requires !Nullish(config)
    ensures I3dmArgv(h, info, config).Ok? && |I3dmArgv(h, info, config).value| == 23
    ensures var a := I3dmArgv(h, info, config).value;
      a[10] == Str(ToString(h.e, Or(Member(config, "maxGeometricError"), NumberValue(5000.0)))) &&
      a[18] == Or(Member(config, "maxFeaturesPerTile"), NumberValue(1000.0))
  {
  }

  /** The default geometric error 5000 is written as `5000`. */
  lemma DefaultErrorText(e: Engine)
    ensures ToString(e, NumberValue(5000.0)) == "5000"
  {
    assert NatToString(5) == "5" && NatToString(50) == "50" && NatToString(500) == "500" && NatToString(5000) == "5000";
    assert (5000.0).Floor == 5000;
  }
}
