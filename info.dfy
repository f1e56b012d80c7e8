/** The legacy server's table metadata: the table name taken from the uploaded file, the
  * attribute columns inferred from the first feature's properties, and the tileset information
  * (output directory and the `properties` ranges the 3D Tiles writers expect). */
module Info {
  import opened Wrappers
  import opened Text
  import opened Lists
  import opened JsValues
  import opened JsNumber

  /** `[name, type]`: a column name and whether its type is `double precision` (else `varchar`). */
  datatype Attribute = Attribute(name: string, numeric: bool)

  function TypeName(a: Attribute): string
  {
    if a.numeric then "double precision" else "varchar"
  }

  datatype Metadata = Metadata(tableName: string, geometryName: string, attributes: seq<Attribute>)

  datatype TableInfo = TableInfo(tableName: string, output: string, attributes: seq<Attribute>,
                                 geometryName: string, properties: Props)

  /** What calling `toLowerCase` on a value that is not a string throws. */
  const TypeErrorReason: string := "TypeError"

  /** `s.replace(/ /g, '_').toLowerCase()` (ASCII case mapping). */
  function Normalise(s: string): string
  {
    Lower(ReplaceChar(s, ' ', '_'))
  }

  /** `(config?.file?.name || 'tiles').toLowerCase().replace(/ /g, '_')` */
  function TableName(config: JsValue): Result<string>
  {
    match Or(Member(Member(config, "file"), "name"), Str("tiles"))
    case Str(s) => Ok(ReplaceChar(Lower(s), ' ', '_'))
    case _ => Err(TypeErrorReason)
  }

  /** `collection?.features?.[0]?.properties || {}` */
  function FirstProperties(features: Option<seq<JsFeature>>): Props
  {
    if features.Some? && |features.value| > 0 && features.value[0].properties.Some?
    then features.value[0].properties.value
    else []
  }

  /** One attribute per own key of `p`, in key order. */
  function AttributesOf(e: Engine, p: Props): seq<Attribute>
  {
    seq(|p|, i requires 0 <= i < |p| => Attribute(Normalise(p[i].0), IsNumber(e, Lookup(p, p[i].0))))
  }

  /** `getMetadata(collection, config)` */
  function GetMetadata(e: Engine, features: Option<seq<JsFeature>>, config: JsValue): Result<Metadata>
  {
    var tableName :- TableName(config);
    Ok(Metadata(tableName, "geom", AttributesOf(e, FirstProperties(features))))
  }

  /** `{minimum: 1, maximum: 1}` for a numeric attribute, `{}` otherwise. */
  function Range(a: Attribute): JsValue
  {
    if a.numeric then Obj([("minimum", NumberValue(1.0)), ("maximum", NumberValue(1.0))]) else Obj([])
  }

  /** `attributes.reduce((acc, entry) => ({...acc, [entry[0]]: range(entry)}), {})` */
  function PropertiesOf(attributes: seq<Attribute>): Props
  {
    if |attributes| == 0 then []
    else
      var n := |attributes| - 1;
      JsValues.Assign(PropertiesOf(attributes[..n]), attributes[n].name, Range(attributes[n]))
  }

  /** `getInfo(collection, config)` */
  function GetInfo(e: Engine, features: Option<seq<JsFeature>>, config: JsValue): Result<TableInfo>
  {
    var m :- GetMetadata(e, features, config);
    Ok(TableInfo(m.tableName, "./static/tilesets/" + ToString(e, Or(Member(config, "name"), Str("tiles"))),
                 m.attributes, m.geometryName, PropertiesOf(m.attributes)))
  }

  function Names(attributes: seq<Attribute>): seq<string>
  {
    seq(|attributes|, i requires 0 <= i < |attributes| => attributes[i].name)
  }

  /** The table name is the file name (default `tiles`) lower-cased with its spaces replaced by
    * `_`; a file name that is truthy but not a string makes `toLowerCase` throw. */
  lemma TableNameShape(config: JsValue)
    ensures var name := Or(Member(Member(config, "file"), "name"), Str("tiles"));
      (TableName(config).Ok? <==> name.Str?) &&
      (TableName(config).Err? ==> TableName(config).error == TypeErrorReason) &&
      (!Truthy(Member(Member(config, "file"), "name")) ==> TableName(config) == Ok("tiles")) &&
      (name.Str? ==> |TableName(config).value| == |name.s| &&
                     ' ' !in TableName(config).value && IsLower(TableName(config).value))
  {
    var name := Or(Member(Member(config, "file"), "name"), Str("tiles"));
    if !Truthy(Member(Member(config, "file"), "name")) {
      assert name == Str("tiles");
      DefaultTableName();
    }
    if name.Str? {
      assert TableName(config) == Ok(ReplaceChar(Lower(name.s), ' ', '_'));
      TableNameText(name.s);
    }
  }

  lemma DefaultTableName()
    ensures ReplaceChar(Lower("tiles"), ' ', '_') == "tiles"
  {
    assert Lower("tiles") == "tiles";
    assert ReplaceChar("tiles", ' ', '_') == "tiles";
  }

  /** A file name lower-cased with its spaces replaced keeps its length and has neither. */
  lemma TableNameText(s: string)
    ensures var t := ReplaceChar(Lower(s), ' ', '_');
      |t| == |s| && ' ' !in t && IsLower(t)
  {
    var t := ReplaceChar(Lower(s), ' ', '_');
    forall i | 0 <= i < |t|
      ensures t[i] != ' ' && !('A' <= t[i] <= 'Z')
    {
    }
  }

  /** Attributes come from the first feature only, one per key in key order, named with spaces
    * replaced and lower-cased, numeric exactly when `isNumber` accepts the value; a collection
    * without features, or whose first feature has no properties, has none. */
  lemma AttributesFromFirstFeature(e: Engine, f: JsFeature, rest: seq<JsFeature>, config: JsValue)
    requires TableName(config).Ok?
    ensures GetMetadata(e, None, config).value.attributes == []
    ensures GetMetadata(e, Some([]), config).value.attributes == []
    ensures var m := GetMetadata(e, Some([f] + rest), config).value;
      var p := if f.properties.Some? then f.properties.value else [];
      m.geometryName == "geom" &&
      m == GetMetadata(e, Some([f]), config).value &&
      AttributesShaped(e, p, m.attributes)
  {
    var p := if f.properties.Some? then f.properties.value else [];
    MetadataOfFirst(e, f, rest, config);
    AttributesOfShape(e, p);
    NoFeaturesNoAttributes(e, config);
  }

  lemma NoFeaturesNoAttributes(e: Engine, config: JsValue)
    requires TableName(config).Ok?
    ensures GetMetadata(e, None, config).value.attributes == []
    ensures GetMetadata(e, Some([]), config).value.attributes == []
  {
  }

  /** `attributes` has one attribute per key of `p`, in key order, its name normalised (no
    * space, no upper-case letter) and numeric exactly when `isNumber` accepts the key's value. */
  ghost predicate AttributesShaped(e: Engine, p: Props, attributes: seq<Attribute>)
  {
    |attributes| == |p| &&
    forall i :: 0 <= i < |p| ==>
      attributes[i].name == Lower(ReplaceChar(p[i].0, ' ', '_')) &&
      ' ' !in attributes[i].name && IsLower(attributes[i].name) &&
      (attributes[i].numeric <==> IsNumber(e, Lookup(p, p[i].0))) &&
      (TypeName(attributes[i]) == "double precision" <==> IsNumber(e, Lookup(p, p[i].0)))
  }

  /** The metadata of a collection depends on its first feature alone. */
  lemma MetadataOfFirst(e: Engine, f: JsFeature, rest: seq<JsFeature>, config: JsValue)
    requires TableName(config).Ok?
    ensures var p := if f.properties.Some? then f.properties.value else [];
      GetMetadata(e, Some([f] + rest), config) == GetMetadata(e, Some([f]), config) ==
        Ok(Metadata(TableName(config).value, "geom", AttributesOf(e, p)))
  {
    var p := if f.properties.Some? then f.properties.value else [];
    assert ([f] + rest)[0] == f;
    assert FirstProperties(Some([f] + rest)) == p == FirstProperties(Some([f]));
    MetadataOfProperties(e, Some([f] + rest), config);
    MetadataOfProperties(e, Some([f]), config);
  }

  lemma MetadataOfProperties(e: Engine, features: Option<seq<JsFeature>>, config: JsValue)
    requires TableName(config).Ok?
    ensures GetMetadata(e, features, config) ==
      Ok(Metadata(TableName(config).value, "geom", AttributesOf(e, FirstProperties(features))))
  {
  }

  /** One attribute per key, its name normalised and numeric exactly when `isNumber` accepts the
    * key's value. */
  lemma AttributesOfShape(e: Engine, p: Props)
    ensures AttributesShaped(e, p, AttributesOf(e, p))
  {
    forall i | 0 <= i < |p|
      ensures ' ' !in Normalise(p[i].0) && IsLower(Normalise(p[i].0))
    {
      NormaliseShape(p[i].0);
    }
  }

  /** A normalised name has no space and no upper-case letter. */
  lemma NormaliseShape(s: string)
    ensures ' ' !in Normalise(s) && IsLower(Normalise(s))
  {
    var n := Normalise(s);
    forall k | 0 <= k < |n|
      ensures n[k] != ' ' && !('A' <= n[k] <= 'Z')
    {
    }
  }

  /** The tileset `properties` has one member per distinct attribute name, in first-occurrence
    * order. */
  lemma {:induction false} PropertiesKeys(attributes: seq<Attribute>)
    ensures Keys(PropertiesOf(attributes)) == Dedup(Names(attributes))
  {
    if |attributes| > 0 {
      var n := |attributes| - 1;
      var init := attributes[..n];
      PropertiesKeys(init);
      assert Names(attributes) == Names(init) + [attributes[n].name];
      assert Names(attributes)[..n] == Names(init);
      DedupElements(Names(init));
    }
  }

  /** The member for a name is `{minimum: 1, maximum: 1}` when the last attribute of that name
    * is numeric and `{}` otherwise; a name no attribute has is absent. */
  lemma PropertiesLookup(attributes: seq<Attribute>, k: string)
    ensures k !in Names(attributes) ==> Lookup(PropertiesOf(attributes), k) == Undefined
    ensures forall i :: 0 <= i < |attributes| && attributes[i].name == k &&
                        (forall j :: i < j < |attributes| ==> attributes[j].name != k) ==>
      Lookup(PropertiesOf(attributes), k) == Range(attributes[i])
  {
    if k !in Names(attributes) {
      PropertiesAbsent(attributes, k);
    }
    forall i | 0 <= i < |attributes| && attributes[i].name == k &&
               (forall j :: i < j < |attributes| ==> attributes[j].name != k)
      ensures Lookup(PropertiesOf(attributes), k) == Range(attributes[i])
    {
      PropertiesLast(attributes, k, i);
    }
  }

  /** A name no attribute has gets no member. */
  lemma {:induction false} PropertiesAbsent(attributes: seq<Attribute>, k: string)
    requires k !in Names(attributes)
    ensures Lookup(PropertiesOf(attributes), k) == Undefined
  {
    if |attributes| > 0 {
      NamesSnoc(attributes);
      PropertiesAbsent(attributes[..|attributes| - 1], k);
      PropertiesStep(attributes, k);
    }
  }

  /** The member for `k` is the range of the last attribute named `k`. */
  lemma {:induction false} PropertiesLast(attributes: seq<Attribute>, k: string, i: int)
    requires 0 <= i < |attributes| && attributes[i].name == k
    requires forall j :: i < j < |attributes| ==> attributes[j].name != k
    ensures Lookup(PropertiesOf(attributes), k) == Range(attributes[i])
  {
    PropertiesStep(attributes, k);
    if attributes[|attributes| - 1].name != k {
      LastOccurrenceInInit(attributes, k, i);
      PropertiesLast(attributes[..|attributes| - 1], k, i);
    }
  }

  /** When the last attribute has another name, the last attribute named `k` is also the last
    * one named `k` among all but the last. */
  lemma LastOccurrenceInInit(attributes: seq<Attribute>, k: string, i: int)
    requires 0 <= i < |attributes| && attributes[i].name == k && attributes[|attributes| - 1].name != k
    requires forall j :: i < j < |attributes| ==> attributes[j].name != k
    ensures var init := attributes[..|attributes| - 1];
      i < |init| && init[i].name == k && init[i] == attributes[i] &&
      forall j :: i < j < |init| ==> init[j].name != k
  {
  }

  /** The names of all attributes are those of all but the last, then the last one's. */
  lemma NamesSnoc(attributes: seq<Attribute>)
    requires |attributes| > 0
    ensures Names(attributes) == Names(attributes[..|attributes| - 1]) + [attributes[|attributes| - 1].name]
  {
  }

  /** The last attribute decides its own name's member and leaves the others as they were. */
  lemma PropertiesStep(attributes: seq<Attribute>, k: string)
    requires |attributes| > 0
    ensures var n := |attributes| - 1;
      Lookup(PropertiesOf(attributes), k) ==
      (if attributes[n].name == k then Range(attributes[n]) else Lookup(PropertiesOf(attributes[..n]), k))
  {
  }

  /** The output directory is `./static/tilesets/` followed by the text of `config.name`, or of
    * `tiles` when that is falsy. */
  lemma OutputOfInfo(e: Engine, features: Option<seq<JsFeature>>, config: JsValue)
    requires GetInfo(e, features, config).Ok?
    ensures GetInfo(e, features, config).value.output ==
      "./static/tilesets/" + ToString(e, Or(Member(config, "name"), Str("tiles")))
  {
    var m := GetMetadata(e, features, config);
    assert m.Ok?;
    assert GetInfo(e, features, config) ==
      Ok(TableInfo(m.value.tableName, "./static/tilesets/" + ToString(e, Or(Member(config, "name"), Str("tiles"))),
                   m.value.attributes, m.value.geometryName, PropertiesOf(m.value.attributes)));
  }

  /** The default directory's text, kept apart so that the literal concatenation is proved in a
    * small context. */
  lemma DefaultOutput()
    ensures "./static/tilesets/" + "tiles" == "./static/tilesets/tiles"
  {
  }

  /** The output directory is named after `config.name` (default `tiles`), not after the file
    * the table name comes from. */
  lemma OutputFromConfigName(e: Engine, features: Option<seq<JsFeature>>, config: JsValue, fileName: string)
    requires GetInfo(e, features, config).Ok?
    ensures !Truthy(Member(config, "name")) ==> GetInfo(e, features, config).value.output == "./static/tilesets/tiles"
    ensures Member(config, "name") == Str(fileName) && fileName != "" ==>
      GetInfo(e, features, config).value.output == "./static/tilesets/" + fileName
  {
    var name := Or(Member(config, "name"), Str("tiles"));
    OutputOfInfo(e, features, config);
    if !Truthy(Member(config, "name")) {
      assert name == Str("tiles");
      DefaultOutput();
    }
    if Member(config, "name") == Str(fileName) && fileName != "" {
      assert name == Str(fileName);
    }
  }
}
