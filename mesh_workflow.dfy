/** The legacy server's mesh workflow: after the polyhedral table is filled, `pg2b3dm` turns it
  * into a 3D Tiles tileset, whose `tileset.json` is then given the attribute ranges as
  * `properties`, and a preview link is logged. The database settings come from the environment,
  * the directory removal, the child process, the tileset file and `path.join` are parameters:
  * `events` are the child process's events and `read` is what reading and parsing
  * `tileset.json` produces (its members, or what reading or parsing throws). */
module MeshWorkflow {
  import opened Wrappers
  import opened Text
  import opened JsValues
  import opened Scripts
  import Info

  /** `dbConfig`: the PostGIS connection settings, as the environment gives them. */
  datatype DbConfig = DbConfig(host: JsValue, port: JsValue, database: JsValue, user: JsValue, password: JsValue)

  /** The engine's conversions, the database settings and `path.join`. */
  datatype Hosts = Hosts(e: Engine, db: DbConfig, pathJoin: seq<string> -> string)

  /** What a tiling workflow does to the world, in order. */
  datatype Effect =
    | Remove(path: string)                    // rimraf.sync(path)
    | Execute(argv: seq<JsValue>)             // executeCommand(argv, ...)
    | WriteTileset(path: string, tileset: Props)
    | Copy(source: string, target: string)   // fs.copyFileSync(source, target)
    | Preview(link: string)                   // the success message with its preview link

  datatype Outcome = Outcome(effects: seq<Effect>, result: Settlement)

  /** What reading a member of undefined or null throws. */
  const TypeErrorReason: string := "TypeError"

  predicate Nullish(v: JsValue)
  {
    v.Undefined? || v.Null?
  }

  /** `${config.maxGeometricError || 250},${config.minGeometricError || 0}` */
  function GeometricErrors(e: Engine, config: JsValue): string
  {
    ToString(e, Or(Member(config, "maxGeometricError"), NumberValue(250.0))) + "," +
    ToString(e, Or(Member(config, "minGeometricError"), NumberValue(0.0)))
  }

  /** The `pg2b3dm` command line; building it reads members of `config` without `?.`, which
    * throws when there is no configuration. */
  function Pg2b3dmArgv(h: Hosts, info: Info.TableInfo, config: JsValue): Result<seq<JsValue>>
  {
    if Nullish(config) then Err(TypeErrorReason)
    else Ok([
      Str("pg2b3dm"),
      Str("-h"), h.db.host,
      Str("-p"), h.db.port,
      Str("-d"), h.db.database,
      Str("-U"), h.db.user,
      Str("-o"), Str(info.output),
      Str("-c"), Str(info.geometryName),
      Str("-t"), Str(info.tableName),
      Str("-a"), Str(Join(Info.Names(info.attributes), ",")),
      Str("-g"), Str(GeometricErrors(h.e, config)),
      Str("--double_sided"), Bool(Truthy(Member(config, "doubleSided"))),
      Str("--use_implicit_tiling"), Bool(false),
      Str("--max_features_per_tile"), Or(Member(config, "maxFeaturesPerTile"), NumberValue(100.0))])
  }

  /** `{...tileset, properties}` */
  function PatchTileset(tileset: Props, properties: Props): Props
  {
    Assign(tileset, "properties", Obj(properties))
  }

  function TilesetPath(h: Hosts, output: string): string
  {
    h.pathJoin([output, "tileset.json"])
  }

  function PreviewLink(tableName: string): string
  {
    "/preview/?" + tableName
  }

  /** `fromPolyhedronToTileset({collection, config})`: the table information first, then the
    * run. */
  function FromPolyhedronToTileset(h: Hosts, features: Option<seq<JsFeature>>, config: JsValue,
                                   events: seq<ProcessEvent>, read: Result<Props>): Outcome
  {
    match Info.GetInfo(h.e, features, config)
    case Err(reason) => Outcome([], Rejected(reason))
    case Ok(info) => Tile(h, info, config, events, read)
  }

  /** Everything after `getInfo`: remove the output, run `pg2b3dm`, and once it has exited patch
    * the tileset and log the preview link. */
  function Tile(h: Hosts, info: Info.TableInfo, config: JsValue, events: seq<ProcessEvent>, read: Result<Props>): Outcome
  {
    match Pg2b3dmArgv(h, info, config)
    case Err(reason) => Outcome([Remove(info.output)], Rejected(reason))
    case Ok(argv) =>
      var started := [Remove(info.output), Execute(argv)];
      match SettlementOf(events)
      case Resolved(_) =>
        (match read
         case Err(reason) => Outcome(started, Rejected(reason))
         case Ok(tileset) =>
           Outcome(started + [WriteTileset(TilesetPath(h, info.output), PatchTileset(tileset, info.properties)),
                              Preview(PreviewLink(info.tableName))],
                   Resolved(Bool(true))))
      case other => Outcome(started, other)
  }

  /** The old output directory is removed before the tiler runs, and before anything else;
    * a missing configuration only removes it. */
  lemma MeshRemovesFirst(h: Hosts, info: Info.TableInfo, config: JsValue, events: seq<ProcessEvent>, read: Result<Props>)
    ensures var o := Tile(h, info, config, events, read);
      |o.effects| >= 1 && o.effects[0] == Remove(info.output) &&
      (forall i :: 1 <= i < |o.effects| ==> !o.effects[i].Remove?) &&
      (Nullish(config) ==> o == Outcome([Remove(info.output)], Rejected(TypeErrorReason))) &&
      (!Nullish(config) ==> |o.effects| >= 2 && o.effects[1] == Execute(Pg2b3dmArgv(h, info, config).value))
  {
  }

  /** The workflow succeeds exactly when the configuration, the tiler's exit and the tileset
    * file all allow it, and stays pending exactly while the tiler has not
    * settled; without success nothing is written and no link is logged. */
  lemma MeshSettles(h: Hosts, info: Info.TableInfo, config: JsValue, events: seq<ProcessEvent>, read: Result<Props>)
    ensures var o := Tile(h, info, config, events, read);
      (o.result.Resolved? <==> !Nullish(config) && SettlementOf(events).Resolved? && read.Ok?) &&
      (o.result.Pending? <==> !Nullish(config) && SettlementOf(events).Pending?) &&
      (o.result.Resolved? ==> o.result.code == Bool(true)) &&
      (!o.result.Resolved? ==> forall i :: 0 <= i < |o.effects| ==> !o.effects[i].WriteTileset? && !o.effects[i].Preview?)
  {
  }

  /** A table-metadata error (a file name that is not a string) stops the workflow before it
    * touches anything. */
  lemma MeshInfoError(h: Hosts, features: Option<seq<JsFeature>>, config: JsValue,
                      events: seq<ProcessEvent>, read: Result<Props>)
    ensures var o := FromPolyhedronToTileset(h, features, config, events, read);
      Info.TableName(config).Err? ==> o == Outcome([], Rejected(Info.TypeErrorReason))
  {
  }

  /** On success the tileset is rewritten in place with its other members kept and `properties`
    * replaced by the attribute ranges, and the table's preview link is logged last. */
  lemma MeshSuccess(h: Hosts, features: Option<seq<JsFeature>>, config: JsValue,
                    events: seq<ProcessEvent>, tileset: Props)
    requires Info.GetInfo(h.e, features, config).Ok? && !Nullish(config) && SettlementOf(events).Resolved?
    ensures var o := FromPolyhedronToTileset(h, features, config, events, Ok(tileset));
      var info := Info.GetInfo(h.e, features, config).value;
      |o.effects| == 4 && o.result == Resolved(Bool(true)) &&
      o.effects[2].WriteTileset? && o.effects[2].path == TilesetPath(h, info.output) &&
      Lookup(o.effects[2].tileset, "properties") == Obj(info.properties) &&
      (forall k :: k != "properties" ==> Lookup(o.effects[2].tileset, k) == Lookup(tileset, k)) &&
      Keys(o.effects[2].tileset) == Keys(tileset) + (if "properties" in Keys(tileset) then [] else ["properties"]) &&
      o.effects[3] == Preview("/preview/?" + info.tableName)
  {
    var info := Info.GetInfo(h.e, features, config).value;
    var patched := PatchTileset(tileset, info.properties);
    assert FromPolyhedronToTileset(h, features, config, events, Ok(tileset)) ==
      Tile(h, info, config, events, Ok(tileset));
    TileSucceeds(h, info, config, events, tileset);
    PatchKeepsOthers(tileset, info.properties);
  }

  /** A successful run: the removal, the tiler, the patched tileset and the preview link. */
  lemma TileSucceeds(h: Hosts, info: Info.TableInfo, config: JsValue, events: seq<ProcessEvent>, tileset: Props)
    requires !Nullish(config) && SettlementOf(events).Resolved?
    ensures Tile(h, info, config, events, Ok(tileset)) ==
      Outcome([Remove(info.output), Execute(Pg2b3dmArgv(h, info, config).value),
               WriteTileset(TilesetPath(h, info.output), PatchTileset(tileset, info.properties)),
               Preview(PreviewLink(info.tableName))], Resolved(Bool(true)))
  {
  }

  /** Patching replaces `properties` and keeps every other member, in order. */
  lemma PatchKeepsOthers(tileset: Props, properties: Props)
    ensures var patched := PatchTileset(tileset, properties);
      Lookup(patched, "properties") == Obj(properties) &&
      (forall k :: k != "properties" ==> Lookup(patched, k) == Lookup(tileset, k)) &&
      Keys(patched) == Keys(tileset) + (if "properties" in Keys(tileset) then [] else ["properties"])
  {
  }

  /** The defaults of the tiler's options: geometric errors `250,0`, 100 features per tile; the
    * double-sided flag is always a boolean and implicit tiling always off; truthy settings pass
    * through unchanged. */
  lemma MeshArgvDefaults(h: Hosts, info: Info.TableInfo, config: JsValue)
    requires !Nullish(config)
    ensures Pg2b3dmArgv(h, info, config).Ok?
    ensures var a := Pg2b3dmArgv(h, info, config).value;
      |a| == 25 && a[0] == Str("pg2b3dm") &&
      (!Truthy(Member(config, "maxGeometricError")) && !Truthy(Member(config, "minGeometricError")) ==>
        a[18] == Str("250,0")) &&
      (!Truthy(Member(config, "maxFeaturesPerTile")) ==> a[24] == NumberValue(100.0)) &&
      (Truthy(Member(config, "maxFeaturesPerTile")) ==> a[24] == Member(config, "maxFeaturesPerTile")) &&
      a[20].Bool? && a[20].b == Truthy(Member(config, "doubleSided")) &&
      a[22] == Bool(false)
  {
    DefaultErrorsText(h.e);
  }

  /** The default geometric errors 250 and 0 are written as `250` and `0`. */
  lemma DefaultErrorsText(e: Engine)
    ensures ToString(e, NumberValue(250.0)) == "250" && ToString(e, NumberValue(0.0)) == "0"
  {
    assert NatToString(2) == "2" && NatToString(25) == "25" && NatToString(250) == "250";
    assert (250.0).Floor == 250 && (0.0).Floor == 0;
  }

  /** The `-a` argument lists the attribute names, comma-separated and in column order: empty
    * without attributes, and split at commas it gives the names back when none holds a comma. */
  lemma {:induction false} MeshAttributeNames(h: Hosts, info: Info.TableInfo, config: JsValue)
    requires !Nullish(config)
    ensures Pg2b3dmArgv(h, info, config).Ok?
    ensures var a := Pg2b3dmArgv(h, info, config).value;
      a[15] == Str("-a") && a[16].Str? &&
      (|info.attributes| == 0 ==> a[16] == Str("")) &&
      (|info.attributes| >= 1 && (forall i :: 0 <= i < |info.attributes| ==> ',' !in info.attributes[i].name) ==>
        Split(a[16].s, ',') == Info.Names(info.attributes))
  {
    var names := Info.Names(info.attributes);
    MeshArgvAttributes(h, info, config);
    if |info.attributes| >= 1 && (forall i :: 0 <= i < |info.attributes| ==> ',' !in info.attributes[i].name) {
      assert forall i :: 0 <= i < |names| ==> ',' !in names[i];
      JoinSplit(names, ',');
    }
  }

  /** The `-a` switch and its argument, the joined attribute names. */
  lemma MeshArgvAttributes(h: Hosts, info: Info.TableInfo, config: JsValue)
    requires !Nullish(config)
    ensures Pg2b3dmArgv(h, info, config).Ok? && |Pg2b3dmArgv(h, info, config).value| == 25
    ensures var a := Pg2b3dmArgv(h, info, config).value;
      a[15] == Str("-a") && a[16] == Str(Join(Info.Names(info.attributes), ","))
  {
  }
}
