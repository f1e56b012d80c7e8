/** The backend worker's processing steps around PDAL, py3dtiles and the tilers: the stage
  * lists of `process_las` and `point_cloud_preview`, the rewrites of the produced tileset
  * JSON (`scale_geometric_error`, the py3dtiles patch, the property maps of `i3dm_export`
  * and `pg2b3dm`), and the arguments of the GeoJSON export. Subprocesses, files and pyproj
  * are hosts: what a run leaves on disk is a parameter. */
module Processes {
  import opened Wrappers
  import opened Numbers
  import opened Text
  import opened PyValues
  import opened TileTrees
  import opened WorkerUtils

  // ---------------------------------------------------------------------------------------
  // scale_geometric_error and the py3dtiles patch

  /** `scale_geometric_error(leaf, scale)`: the node's error multiplied, then, when it has a
    * `children` member, the children rescaled one by one into a fresh list. */
  method ScaleGeometricError(leaf: TileNode<PyValue>, scale: real) returns (r: TileNode<PyValue>)
    decreases leaf
    ensures r == Scaled(leaf, scale)
  {
    var scaledLeaf := leaf.(geometricError := leaf.geometricError * scale);
    match leaf.kids {
      case NoChildren =>
        r := scaledLeaf;
      case Children(cs) =>
        var children: seq<TileNode<PyValue>> := [];
        for i := 0 to |cs|
          invariant |children| == i
          invariant forall j :: 0 <= j < i ==> children[j] == Scaled(cs[j], scale)
        {
          var child := ScaleGeometricError(cs[i], scale);
          children := children + [child];
        }
        assert children == Scaled(leaf, scale).kids.nodes;
        r := scaledLeaf.(kids := Children(children));
    }
  }

  /** A tileset.json document: its top-level `geometricError`, `root` and `properties` (each
    * when present) and its other members. */
  datatype Document<V> = Document(geometricError: Option<real>, root: Option<TileNode<V>>,
                                  properties: Option<V>, others: seq<(string, V)>)

  /** `{"Classification": {"minimum": 0, "maximum": 255}}` */
  const ClassificationRange: PyValue :=
    PyDict([("Classification", PyDict([("minimum", PyInt(0)), ("maximum", PyInt(255))]))])

  /** The rewrite after `py3dtiles convert`: `properties` replaced by the classification range,
    * the top-level error and the whole root tree scaled by the factor, everything else kept.
    * A document without `geometricError` or `root` raises KeyError. */
  function Py3dtilesPatch(d: Document<PyValue>, factor: real): (r: Result<Document<PyValue>>)
    ensures r.Ok? <==> d.geometricError.Some? && d.root.Some?
    ensures r.Err? ==> r.error == KeyError
  {
    if d.geometricError.None? || d.root.None? then Err(KeyError)
    else Ok(Document(Some(d.geometricError.value * factor), Some(Scaled(d.root.value, factor)),
                     Some(ClassificationRange), d.others))
  }

  /** Every node of the patched root is the node at the same place in the original tree, with
    * its error multiplied by the factor and its other members and leaf status kept; the
    * top-level error is scaled too and the other top-level members are kept. */
  lemma Py3dtilesPatchScalesEveryNode(d: Document<PyValue>, factor: real, path: seq<nat>)
    requires d.geometricError.Some? && d.root.Some?
    ensures var p := Py3dtilesPatch(d, factor).value;
      p.geometricError == Some(d.geometricError.value * factor) &&
      p.properties == Some(ClassificationRange) && p.others == d.others &&
      p.root.Some? &&
      (At(p.root.value, path).Some? <==> At(d.root.value, path).Some?) &&
      (At(d.root.value, path).Some? ==>
        At(p.root.value, path).value.geometricError == At(d.root.value, path).value.geometricError * factor &&
        At(p.root.value, path).value.others == At(d.root.value, path).value.others &&
        At(p.root.value, path).value.kids.NoChildren? == At(d.root.value, path).value.kids.NoChildren?)
  {
    ScaledNodes(d.root.value, factor, path);
    PatchFields(d, factor);
  }

  /** Patching twice is patching once by the product of the factors. */
  lemma Py3dtilesPatchTwice(d: Document<PyValue>, a: real, b: real)
    requires d.geometricError.Some? && d.root.Some?
    ensures Py3dtilesPatch(Py3dtilesPatch(d, a).value, b) == Py3dtilesPatch(d, a * b)
  {
    ScaleComposes(d.root.value, a, b);
    PatchFields(d, a);
    var once := Py3dtilesPatch(d, a).value;
    PatchFields(once, b);
    PatchFields(d, a * b);
    assert d.geometricError.value * a * b == d.geometricError.value * (a * b);
    var x, y := Py3dtilesPatch(once, b).value, Py3dtilesPatch(d, a * b).value;
    assert x.geometricError.value == y.geometricError.value;
    assert x.root.value == y.root.value;
    assert x == y;
  }

  lemma PatchFields(d: Document<PyValue>, factor: real)
    requires d.geometricError.Some? && d.root.Some?
    ensures Py3dtilesPatch(d, factor).Ok?
    ensures var p := Py3dtilesPatch(d, factor).value;
      p.geometricError.Some? && p.geometricError.value == d.geometricError.value * factor &&
      p.root.Some? && p.root.value == Scaled(d.root.value, factor) &&
      p.properties == Some(ClassificationRange) && p.others == d.others
  {
  }

  /** With the default factor 1 only `properties` changes. */
  lemma Py3dtilesPatchDefaultFactor(d: Document<PyValue>)
    requires d.geometricError.Some? && d.root.Some?
    ensures Py3dtilesPatch(d, 1.0) == Ok(d.(properties := Some(ClassificationRange)))
  {
    ScaleByOne(d.root.value);
  }

  // ---------------------------------------------------------------------------------------
  // Property maps of i3dm_export and pg2b3dm

  /** A table column: its name and whether its SQL type is exactly VARCHAR. */
  datatype Column = Column(name: string, isVarchar: bool)

  /** A VARCHAR column gets `{}`, any other `{"minimum": 1, "maximum": 1}`. */
  function PropertyValue(c: Column): PyValue
  {
    if c.isVarchar then PyDict([]) else PyDict([("minimum", PyInt(1)), ("maximum", PyInt(1))])
  }

  predicate Skipped(c: Column, geometryColumn: string, fidColumn: string)
  {
    c.name == geometryColumn || c.name == fidColumn
  }

  /** The map after the loop has seen `cols`. */
  function PropertyMap(cols: seq<Column>, geometryColumn: string, fidColumn: string): Dict
  {
    if cols == [] then []
    else
      var before := PropertyMap(cols[..|cols| - 1], geometryColumn, fidColumn);
      var c := cols[|cols| - 1];
      if Skipped(c, geometryColumn, fidColumn) then before else SetItem(before, c.name, PropertyValue(c))
  }

  /** The `for c in table.c` loop filling `property_keys`. */
  method PropertyKeys(cols: seq<Column>, geometryColumn: string, fidColumn: string) returns (keys: Dict)
    ensures keys == PropertyMap(cols, geometryColumn, fidColumn)
  {
    keys := [];
    for i := 0 to |cols|
      invariant keys == PropertyMap(cols[..i], geometryColumn, fidColumn)
    {
      assert cols[..i + 1][..i] == cols[..i];
      if !Skipped(cols[i], geometryColumn, fidColumn) {
        keys := SetItem(keys, cols[i].name, PropertyValue(cols[i]));
      }
    }
    assert cols[..|cols|] == cols;
  }

  /** The last column called `name`, if any. */
  function LastColumn(cols: seq<Column>, name: string): Option<Column>
  {
    if cols == [] then None
    else if cols[|cols| - 1].name == name then Some(cols[|cols| - 1])
    else LastColumn(cols[..|cols| - 1], name)
  }

  /** The geometry and fid columns never appear; every other column name maps to the value its
    * type calls for (for a repeated name, the type of its last column). */
  lemma {:induction false} PropertyMapGet(cols: seq<Column>, geometryColumn: string, fidColumn: string, k: string)
    ensures Get(PropertyMap(cols, geometryColumn, fidColumn), k) ==
      if k == geometryColumn || k == fidColumn || LastColumn(cols, k).None? then None
      else Some(PropertyValue(LastColumn(cols, k).value))
  {
    if cols != [] {
      PropertyMapGet(cols[..|cols| - 1], geometryColumn, fidColumn, k);
    }
  }

  /** No property name is listed twice. */
  lemma {:induction false} PropertyMapUniqueKeys(cols: seq<Column>, geometryColumn: string, fidColumn: string)
    ensures UniqueKeys(PropertyMap(cols, geometryColumn, fidColumn))
  {
    if cols != [] {
      var before := PropertyMap(cols[..|cols| - 1], geometryColumn, fidColumn);
      PropertyMapUniqueKeys(cols[..|cols| - 1], geometryColumn, fidColumn);
      var c := cols[|cols| - 1];
      if !Skipped(c, geometryColumn, fidColumn) {
        var after := SetItem(before, c.name, PropertyValue(c));
        assert |Keys(after)| == |after|;
        forall i, j | 0 <= i < j < |after|
          ensures after[i].0 != after[j].0
        {
          assert Keys(after)[i] == after[i].0 && Keys(after)[j] == after[j].0;
          if c.name !in Keys(before) {
            assert Keys(after) == Keys(before) + [c.name];
            if j == |before| {
              assert Keys(before)[i] == before[i].0;
            } else {
              assert Keys(before)[i] == before[i].0 && Keys(before)[j] == before[j].0;
            }
          } else {
            assert Keys(before)[i] == before[i].0 && Keys(before)[j] == before[j].0;
          }
        }
      }
    }
  }

  /** `data["properties"] = property_keys` on the loaded tileset: the other members keep their
    * values and their order. */
  function WithPropertyMap(data: Dict, cols: seq<Column>, geometryColumn: string, fidColumn: string): (r: Dict)
    ensures Get(r, "properties") == Some(PyDict(PropertyMap(cols, geometryColumn, fidColumn)))
    ensures forall k :: k != "properties" ==> Get(r, k) == Get(data, k)
    ensures "properties" in Keys(data) ==> Keys(r) == Keys(data)
  {
    SetItem(data, "properties", PyDict(PropertyMap(cols, geometryColumn, fidColumn)))
  }

  // ---------------------------------------------------------------------------------------
  // PDAL stages

  /** The PDAL stages the workflows write, with the members they set; `V` is the dialect's
    * value type for members copied from the caller. `writers.las` always has compression on,
    * `filters.reprojection` always has `error_on_failure` on, and `writers.text` writes CSV
    * without the unspecified dimensions. */
  datatype Stage<V> =
    | ReadersLas(filename: string)
    | Sample(radius: V)
    | Reprojection(inSrs: V, outSrs: V)
    | Colorization(raster: V)
    | Assign(assignment: string)
    | Elm
    | Outlier
    | Smrf(ignore: string)
    | WritersLas(filename: string, aSrs: Option<V>)
    | Decimation(step: int)
    | Transformation(matrix: string)
    | WritersText(order: string, filename: string)

  /** The four ground-classification stages: reset the class, mark low noise, mark outliers,
    * classify ground ignoring noise. */
  function GroundStages<V>(): seq<Stage<V>>
  {
    [Assign("Classification[:]=0"), Elm, Outlier, Smrf("Classification[7:7]")]
  }

  /** Which stages an order ranks; the rank of a stage kind in the pipeline. */
  predicate InOrder<V>(stages: seq<Stage<V>>, rank: Stage<V> -> int)
  {
    forall i, j :: 0 <= i < j < |stages| ==> rank(stages[i]) < rank(stages[j])
  }

  // ---------------------------------------------------------------------------------------
  // process_las

  const CRSError: string := "CRSError"
  const SampleNotCreated: string := "Sample not created"

  /** The asset dict: `id`, `extension`, and `upload_result` when present. */
  datatype Asset = Asset(id: PyValue, extension: string, uploadResult: Option<Dict>)

  /** The flags `process_las` is called with, each checked for truthiness. */
  datatype LasOptions = LasOptions(sampleRadius: PyValue, toEllipsoidalHeight: PyValue,
                                   colorizationImage: PyValue, groundClassification: PyValue)

  /** What the worker depends on: the interpreter, `settings.ASSETS_DATA`, pyproj's
    * `CRS(h).geodetic_crs.to_epsg()` (None when it raises) and whether PDAL left a file
    * at a path. */
  datatype LasHosts = LasHosts(ip: Interpreter, assetsData: string,
                               geodeticEpsg: PyValue -> Option<PyValue>, produced: string -> bool)

  /** `key in d` for a dict decoded from JSON: its keys are strings, and a value of another
    * type is never equal to a string. */
  predicate HasKey(d: Dict, key: PyValue)
  {
    exists i :: 0 <= i < |d| && PyStr(d[i].0) == key
  }

  /** `horizontal_epsg`: the upload result's value when present and truthy, else None. */
  function HorizontalEpsg(ur: Dict): PyValue
  {
    var h := Get(ur, "horizontal_epsg");
    if h.Some? && Truthy(h.value) then h.value else PyNone
  }

  /** `vertical_epsg`: 3855 (EGM2008) unless the dict has the integer 3855 as a key, which is
    * what the membership test asks. */
  function VerticalEpsg(ur: Dict): Result<PyValue>
  {
    if HasKey(ur, PyInt(3855)) then
      match Get(ur, "vertical_epsg")
      case None => Err(KeyError)
      case Some(v) => if Truthy(v) then Ok(v) else Ok(PyInt(3855))
    else Ok(PyInt(3855))
  }

  /** The reprojection to ellipsoidal heights, when asked for and the asset has an upload
    * result: from `EPSG:<h>+<v>` to `EPSG:<h>+<geodetic CRS of h>`. */
  function ReprojectionStages(h: LasHosts, asset: Asset, o: LasOptions): Result<seq<Stage<PyValue>>>
  {
    if !Truthy(o.toEllipsoidalHeight) || asset.uploadResult.None? then Ok([])
    else
      var ur := asset.uploadResult.value;
      var horizontal := HorizontalEpsg(ur);
      var vertical :- VerticalEpsg(ur);
      var geodetic := h.geodeticEpsg(horizontal);
      if geodetic.None? then Err(CRSError)
      else
        var hText := "EPSG:" + Str(h.ip, horizontal) + "+";
        Ok([Reprojection(PyStr(hText + Str(h.ip, vertical)), PyStr(hText + Str(h.ip, geodetic.value)))])
  }

  /** The stages between reader and writer, appended flag by flag. */
  function LasStages(h: LasHosts, asset: Asset, o: LasOptions): Result<seq<Stage<PyValue>>>
  {
    var reprojection :- ReprojectionStages(h, asset, o);
    Ok(SampleStages(o) + reprojection + ColorizationStages(o) + GroundClassificationStages(o))
  }

  function SampleStages(o: LasOptions): seq<Stage<PyValue>>
  {
    if Truthy(o.sampleRadius) then [Sample(o.sampleRadius)] else []
  }

  function ColorizationStages(o: LasOptions): seq<Stage<PyValue>>
  {
    if Truthy(o.colorizationImage) then [Colorization(o.colorizationImage)] else []
  }

  function GroundClassificationStages(o: LasOptions): seq<Stage<PyValue>>
  {
    if Truthy(o.groundClassification) then GroundStages() else []
  }

  /** What `process_las` returns: the uploaded file itself, or the processed file together with
    * the pipeline written for it. */
  datatype LasRun =
    | Unchanged(path: string)
    | Processed(pipeline: seq<Stage<PyValue>>, pipelinePath: string, output: string)

  /** The body of `process_las` with the path helper it calls as a parameter, applied to the
    * positional arguments each call site passes. */
  function ProcessLasWith(h: LasHosts, pathOf: seq<PyValue> -> Result<string>, pipelineId: PyValue,
                          asset: Asset, o: LasOptions): Result<LasRun>
  {
    var upload :- pathOf([asset.id, PyStr(asset.extension)]);
    var stages :- LasStages(h, asset, o);
    if stages == [] then Ok(Unchanged(upload))
    else
      var output :- pathOf([asset.id, PyStr(".laz"), pipelineId]);
      var pipelinePath :- pathOf([asset.id, PyStr(".json"), PyStr(Str(h.ip, pipelineId) + ".pipeline")]);
      if !h.produced(output) then Err(SampleNotCreated)
      else Ok(Processed([ReadersLas(upload)] + stages + [WritersLas(output, None)], pipelinePath, output))
  }

  /** `process_las` as written: every call passes two or three arguments to the one-parameter
    * `get_asset_upload_path`. */
  function ProcessLasAsWritten(h: LasHosts, pipelineId: PyValue, asset: Asset, o: LasOptions): Result<LasRun>
  {
    ProcessLasWith(h, (args: seq<PyValue>) => CallUploadPath(h.ip, h.assetsData, args), pipelineId, asset, o)
  }

  /** Whatever the asset and flags, `process_las` as written raises TypeError at its first line. */
  lemma ProcessLasAsWrittenRaises(h: LasHosts, pipelineId: PyValue, asset: Asset, o: LasOptions)
    ensures ProcessLasAsWritten(h, pipelineId, asset, o) == Err(TypeError)
  {
    var first := CallUploadPath(h.ip, h.assetsData, [asset.id, PyStr(asset.extension)]);
    assert first == Err(TypeError);
  }

  /** The call each `process_las` site intends, made the way the other worker tasks call the
    * one-parameter helper: the id, the extension and the name (`index` by default) become the
    * single pathname `<id>/<name><extension>`. */
  function IntendedPathCall(ip: Interpreter, assetsData: string, args: seq<PyValue>): (r: Result<string>)
    ensures r.Ok? <==> 2 <= |args| <= 3
    ensures r.Err? ==> r.error == TypeError
  {
    if |args| == 2 then CallUploadPath(ip, assetsData, [PyStr(Str(ip, args[0]) + "/index" + Str(ip, args[1]))])
    else if |args| == 3 then CallUploadPath(ip, assetsData, [PyStr(Str(ip, args[0]) + "/" + Str(ip, args[2]) + Str(ip, args[1]))])
    else Err(TypeError)
  }

  /** `process_las` with each path asked of the one-parameter helper as the other tasks ask it. */
  function ProcessLas(h: LasHosts, pipelineId: PyValue, asset: Asset, o: LasOptions): Result<LasRun>
  {
    ProcessLasWith(h, (args: seq<PyValue>) => IntendedPathCall(h.ip, h.assetsData, args), pipelineId, asset, o)
  }

  /** The rank of each stage in the backend's order: sample, reprojection, colorization, then
    * the four ground stages. */
  function PyRank(s: Stage<PyValue>): int
  {
    match s
    case Sample(_) => 0
    case Reprojection(_, _) => 1
    case Colorization(_) => 2
    case Assign(_) => 3
    case Elm => 4
    case Outlier => 5
    case Smrf(_) => 6
    case _ => 7
  }

  /** The only error on the way to the stages is pyproj's. */
  lemma LasStagesError(h: LasHosts, asset: Asset, o: LasOptions)
    ensures LasStages(h, asset, o).Err? ==> LasStages(h, asset, o).error == CRSError
  {
    if asset.uploadResult.Some? {
      VerticalIsAlways3855(asset.uploadResult.value);
    }
  }

  /** The reprojection part is at most one reprojection stage, present exactly when asked for
    * on an asset with an upload result. */
  lemma ReprojectionStagesShape(h: LasHosts, asset: Asset, o: LasOptions)
    requires ReprojectionStages(h, asset, o).Ok?
    ensures var rs := ReprojectionStages(h, asset, o).value;
      |rs| <= 1 && (forall k :: 0 <= k < |rs| ==> rs[k].Reprojection?) &&
      (|rs| == 1 <==> Truthy(o.toEllipsoidalHeight) && asset.uploadResult.Some?)
  {
    if Truthy(o.toEllipsoidalHeight) && asset.uploadResult.Some? {
      VerticalIsAlways3855(asset.uploadResult.value);
    }
  }

  /** The stages come in the backend's fixed order: sample, reprojection, colorization, ground. */
  lemma LasStagesOrdered(h: LasHosts, asset: Asset, o: LasOptions)
    requires LasStages(h, asset, o).Ok?
    ensures InOrder(LasStages(h, asset, o).value, PyRank)
  {
    var stages := LasStages(h, asset, o).value;
    ReprojectionStagesShape(h, asset, o);
    var a, b, c, d := SampleStages(o), ReprojectionStages(h, asset, o).value,
                      ColorizationStages(o), GroundClassificationStages(o);
    assert stages == a + b + c + d;
    forall i, j | 0 <= i < j < |stages|
      ensures PyRank(stages[i]) < PyRank(stages[j])
    {
      RankInSections(a, b, c, d, i, j);
    }
  }

  /** Each optional stage appears exactly when its flag asks for it. */
  lemma LasStagesPresence(h: LasHosts, asset: Asset, o: LasOptions)
    requires LasStages(h, asset, o).Ok?
    ensures var r := LasStages(h, asset, o).value;
      ((exists i :: 0 <= i < |r| && r[i].Sample?) <==> Truthy(o.sampleRadius)) &&
      ((exists i :: 0 <= i < |r| && r[i].Reprojection?) <==>
         Truthy(o.toEllipsoidalHeight) && asset.uploadResult.Some?) &&
      ((exists i :: 0 <= i < |r| && r[i].Colorization?) <==> Truthy(o.colorizationImage)) &&
      ((exists i :: 0 <= i < |r| && r[i].Smrf?) <==> Truthy(o.groundClassification))
  {
    var r := LasStages(h, asset, o).value;
    ReprojectionStagesShape(h, asset, o);
    var a, b, c, d := SampleStages(o), ReprojectionStages(h, asset, o).value,
                      ColorizationStages(o), GroundClassificationStages(o);
    assert r == a + b + c + d;
    if Truthy(o.sampleRadius) {
      SectionOf(a, b, c, d, 0);
    }
    if |b| == 1 {
      SectionOf(a, b, c, d, |a|);
    }
    if Truthy(o.colorizationImage) {
      SectionOf(a, b, c, d, |a| + |b|);
    }
    if Truthy(o.groundClassification) {
      SectionOf(a, b, c, d, |a| + |b| + |c| + 3);
    }
    forall i | 0 <= i < |r|
      ensures r[i].Sample? ==> Truthy(o.sampleRadius)
      ensures r[i].Reprojection? ==> |b| == 1
      ensures r[i].Colorization? ==> Truthy(o.colorizationImage)
      ensures r[i].Smrf? ==> Truthy(o.groundClassification)
    {
      SectionOf(a, b, c, d, i);
    }
  }

  /** Where index `i` of a four-part concatenation falls. */
  lemma SectionOf<T>(a: seq<T>, b: seq<T>, c: seq<T>, d: seq<T>, i: nat)
    requires i < |a + b + c + d|
    ensures i < |a| ==> (a + b + c + d)[i] == a[i]
    ensures |a| <= i < |a| + |b| ==> (a + b + c + d)[i] == b[i - |a|]
    ensures |a| + |b| <= i < |a| + |b| + |c| ==> (a + b + c + d)[i] == c[i - |a| - |b|]
    ensures |a| + |b| + |c| <= i ==> (a + b + c + d)[i] == d[i - |a| - |b| - |c|]
  {
  }

  lemma RankInSections(a: seq<Stage<PyValue>>, b: seq<Stage<PyValue>>, c: seq<Stage<PyValue>>,
                       d: seq<Stage<PyValue>>, i: nat, j: nat)
    requires |a| <= 1 && (forall k :: 0 <= k < |a| ==> a[k].Sample?)
    requires |b| <= 1 && (forall k :: 0 <= k < |b| ==> b[k].Reprojection?)
    requires |c| <= 1 && (forall k :: 0 <= k < |c| ==> c[k].Colorization?)
    requires d == [] || d == GroundStages()
    requires i < j < |a + b + c + d|
    ensures PyRank((a + b + c + d)[i]) < PyRank((a + b + c + d)[j])
  {
    SectionOf(a, b, c, d, i);
    SectionOf(a, b, c, d, j);
  }

  /** The membership test looks for the integer 3855 among string keys, so the input vertical
    * datum is always EGM2008 (3855), whatever the upload result says. */
  lemma VerticalIsAlways3855(ur: Dict)
    ensures VerticalEpsg(ur) == Ok(PyInt(3855))
  {
    assert !HasKey(ur, PyInt(3855));
  }

  /** The reprojection's input CRS ends in `+3855`, even when the upload result names another
    * vertical datum. */
  lemma ReprojectionFromEgm2008(h: LasHosts, asset: Asset, o: LasOptions)
    requires ReprojectionStages(h, asset, o).Ok? && ReprojectionStages(h, asset, o).value != []
    ensures var s := ReprojectionStages(h, asset, o).value[0];
      s.Reprojection? && s.inSrs ==
        PyStr("EPSG:" + Str(h.ip, HorizontalEpsg(asset.uploadResult.value)) + "+3855")
  {
    VerticalIsAlways3855(asset.uploadResult.value);
    assert Str(h.ip, PyInt(3855)) == "3855" by {
      assert NatToString(3855) == "3855";
    }
  }

  /** When no flag applies, `process_las` hands back the uploaded file, at the path where the
    * upload task stored it; otherwise it wraps the stages between a reader of that file and a
    * compressed writer of `<pipeline id>.laz` beside it, and fails when PDAL produced nothing. */
  lemma ProcessLasOutcome(h: LasHosts, pipelineId: PyValue, asset: Asset, o: LasOptions)
    ensures var r := ProcessLas(h, pipelineId, asset, o);
      var stages := LasStages(h, asset, o);
      var upload := UploadPath(h.ip, h.assetsData, PyStr(Str(h.ip, asset.id) + "/index" + asset.extension));
      var output := UploadPath(h.ip, h.assetsData, PyStr(Str(h.ip, asset.id) + "/" + Str(h.ip, pipelineId) + ".laz"));
      (stages.Err? ==> r == Err(stages.error)) &&
      (stages == Ok([]) ==> r == Ok(Unchanged(upload))) &&
      (stages.Ok? && stages.value != [] ==>
        (r.Err? <==> !h.produced(output)) &&
        (r.Err? ==> r.error == SampleNotCreated) &&
        (r.Ok? ==> r.value.Processed? && r.value.output == output &&
                   r.value.pipeline == [ReadersLas(upload)] + stages.value + [WritersLas(output, None)]))
  {
    LasPaths(h, pipelineId, asset);
  }

  /** The three paths `process_las` asks for: the upload, the output and the pipeline file. */
  lemma LasPaths(h: LasHosts, pipelineId: PyValue, asset: Asset)
    ensures var pathOf := (args: seq<PyValue>) => IntendedPathCall(h.ip, h.assetsData, args);
      pathOf([asset.id, PyStr(asset.extension)]) ==
        Ok(UploadPath(h.ip, h.assetsData, PyStr(Str(h.ip, asset.id) + "/index" + asset.extension))) &&
      pathOf([asset.id, PyStr(".laz"), pipelineId]) ==
        Ok(UploadPath(h.ip, h.assetsData, PyStr(Str(h.ip, asset.id) + "/" + Str(h.ip, pipelineId) + ".laz"))) &&
      pathOf([asset.id, PyStr(".json"), PyStr(Str(h.ip, pipelineId) + ".pipeline")]).Ok?
  {
    assert Str(h.ip, PyStr(asset.extension)) == asset.extension;
    assert Str(h.ip, PyStr(".laz")) == ".laz";
  }

  // ---------------------------------------------------------------------------------------
  // point_cloud_preview

  /** Previews are decimated down to this many points. */
  const PreviewPoints: int := 500000

  /** `int(math.ceil(count / 500000))` */
  function DecimationStep(count: int): int
  {
    Ceil(count as real / PreviewPoints as real)
  }

  /** The step keeps at most 500000 points and is the smallest step that does. */
  lemma DecimationStepBounds(count: int)
    requires count > PreviewPoints
    ensures var step := DecimationStep(count);
      step >= 2 && count <= step * PreviewPoints && (step - 1) * PreviewPoints < count
  {
    var step := DecimationStep(count);
    var q := count as real / PreviewPoints as real;
    assert q * PreviewPoints as real == count as real;
    assert q > 1.0;
    assert step as real >= q;
    assert (step as real) * (PreviewPoints as real) >= q * (PreviewPoints as real);
    assert (step - 1) as real < q;
    assert ((step - 1) as real) * (PreviewPoints as real) < q * (PreviewPoints as real);
  }

  /** The statistics found for X, Y, Z and Red. */
  datatype Statistics = Statistics(x: Option<Dict>, y: Option<Dict>, z: Option<Dict>, red: Option<Dict>)

  /** The last entry whose `name` is the string `name`. */
  function LastNamed(statistic: seq<Dict>, name: string): Option<Dict>
  {
    if statistic == [] then None
    else if Get(statistic[|statistic| - 1], "name") == Some(PyStr(name)) then Some(statistic[|statistic| - 1])
    else LastNamed(statistic[..|statistic| - 1], name)
  }

  /** The entries all have a `name` (otherwise `value['name']` raises KeyError). */
  predicate AllNamed(statistic: seq<Dict>)
  {
    forall i :: 0 <= i < |statistic| ==> Get(statistic[i], "name").Some?
  }

  /** The `for value in statistic` loop: each matching entry overwrites the one found before. */
  method ScanStatistics(statistic: seq<Dict>) returns (r: Result<Statistics>)
    ensures r.Ok? <==> AllNamed(statistic)
    ensures r.Err? ==> r.error == KeyError
    ensures r.Ok? ==> r.value == Statistics(LastNamed(statistic, "X"), LastNamed(statistic, "Y"),
                                            LastNamed(statistic, "Z"), LastNamed(statistic, "Red"))
  {
    var x, y, z, red: Option<Dict> := None, None, None, None;
    for i := 0 to |statistic|
      invariant AllNamed(statistic[..i])
      invariant x == LastNamed(statistic[..i], "X") && y == LastNamed(statistic[..i], "Y")
      invariant z == LastNamed(statistic[..i], "Z") && red == LastNamed(statistic[..i], "Red")
    {
      var value := statistic[i];
      var name := Get(value, "name");
      if name.None? {
        assert !AllNamed(statistic) by {
          assert Get(statistic[i], "name").None?;
        }
        return Err(KeyError);
      }
      assert statistic[..i + 1][..i] == statistic[..i];
      if name.value == PyStr("X") {
        x := Some(value);
      }
      if name.value == PyStr("Y") {
        y := Some(value);
      }
      if name.value == PyStr("Z") {
        z := Some(value);
      }
      if name.value == PyStr("Red") {
        red := Some(value);
      }
    }
    assert statistic[..|statistic|] == statistic;
    return Ok(Statistics(x, y, z, red));
  }

  /** The entry the scan keeps is named as asked and no later entry has that name. */
  lemma {:induction false} LastNamedIsLast(statistic: seq<Dict>, name: string)
    ensures var r := LastNamed(statistic, name);
      r.Some? ==>
        exists i :: 0 <= i < |statistic| && statistic[i] == r.value &&
                    Get(statistic[i], "name") == Some(PyStr(name)) &&
                    (forall j :: i < j < |statistic| ==> Get(statistic[j], "name") != Some(PyStr(name)))
    ensures LastNamed(statistic, name).None? ==>
      forall j :: 0 <= j < |statistic| ==> Get(statistic[j], "name") != Some(PyStr(name))
  {
    if statistic != [] {
      var init := statistic[..|statistic| - 1];
      LastNamedIsLast(init, name);
      var r := LastNamed(statistic, name);
      if Get(statistic[|statistic| - 1], "name") != Some(PyStr(name)) {
        if r.Some? {
          var i :| 0 <= i < |init| && init[i] == r.value && Get(init[i], "name") == Some(PyStr(name)) &&
            forall j :: i < j < |init| ==> Get(init[j], "name") != Some(PyStr(name));
          assert statistic[i] == init[i];
          forall j | i < j < |statistic|
            ensures Get(statistic[j], "name") != Some(PyStr(name))
          {
            if j < |init| {
              assert statistic[j] == init[j];
            }
          }
        } else {
          forall j | 0 <= j < |statistic|
            ensures Get(statistic[j], "name") != Some(PyStr(name))
          {
            if j < |init| {
              assert statistic[j] == init[j];
            }
          }
        }
      }
    }
  }

  /** `(d['minimum'], d['maximum'])` as numbers: TypeError for a missing entry (`None[...]`) or
    * a non-numeric member, KeyError for a missing member. */
  function Extent(d: Option<Dict>): Result<(Number, Number)>
  {
    if d.None? then Err(TypeError)
    else
      var hi := Get(d.value, "maximum");
      var lo := Get(d.value, "minimum");
      if hi.None? || lo.None? then Err(KeyError)
      else if NumOf(hi.value).None? || NumOf(lo.value).None? then Err(TypeError)
      else Ok((NumOf(lo.value).value, NumOf(hi.value).value))
  }

  /** `minimum + (maximum - minimum) / 2` */
  function Centre(e: (Number, Number)): Number
  {
    Add(e.0, Div(Sub(e.1, e.0), Finite(2.0)))
  }

  /** For finite bounds the centre is the midpoint. */
  lemma CentreIsMidpoint(lo: real, hi: real)
    ensures Centre((Finite(lo), Finite(hi))) == Finite((lo + hi) / 2.0)
  {
  }

  /** The `filters.transformation` matrix moving the centre to the origin. */
  function CentringMatrix(ip: Interpreter, c: seq<Number>): string
    requires |c| == 3
  {
    "1  0  0  " + FloatToString(ip, Neg(c[0])) + "  0  1  0  " + FloatToString(ip, Neg(c[1])) +
    "  0  0  1  " + FloatToString(ip, Neg(c[2])) + "  0  0  0  1"
  }

  const ColourOrder: string := "X,Y,Z,Red:0,Green:0,Blue:0"
  const PlainOrder: string := "X,Y,Z"

  /** The pipeline `point_cloud_preview` writes, or the error it raises (before PDAL runs). */
  function PreviewPipeline(ip: Interpreter, input: string, output: string, count: int, statistic: seq<Dict>)
    : Result<seq<Stage<PyValue>>>
  {
    var decimation := if count > PreviewPoints then [Decimation(DecimationStep(count))] else [];
    if !AllNamed(statistic) then Err(KeyError)
    else
      var x :- Extent(LastNamed(statistic, "X"));
      var y :- Extent(LastNamed(statistic, "Y"));
      var z :- Extent(LastNamed(statistic, "Z"));
      var red := LastNamed(statistic, "Red");
      var order := if red.Some? && red.value != [] then ColourOrder else PlainOrder;
      Ok([ReadersLas(input)] + decimation +
         [Transformation(CentringMatrix(ip, [Centre(x), Centre(y), Centre(z)])), WritersText(order, output)])
  }

  /** `point_cloud_preview`: builds the pipeline, lets PDAL run it, and raises when the sample
    * file is missing afterwards. */
  method PointCloudPreview(ip: Interpreter, produced: string -> bool, input: string, output: string,
                           count: int, statistic: seq<Dict>) returns (r: Result<seq<Stage<PyValue>>>)
    ensures r == (var p := PreviewPipeline(ip, input, output, count, statistic);
                  if p.Ok? && !produced(output) then Err(SampleNotCreated) else p)
  {
    var pipeline: seq<Stage<PyValue>> := [ReadersLas(input)];
    if count > PreviewPoints {
      pipeline := pipeline + [Decimation(DecimationStep(count))];
    }
    var stats := ScanStatistics(statistic);
    if stats.Err? {
      return Err(stats.error);
    }
    var x := Extent(stats.value.x);
    if x.Err? {
      return Err(x.error);
    }
    var y := Extent(stats.value.y);
    if y.Err? {
      return Err(y.error);
    }
    var z := Extent(stats.value.z);
    if z.Err? {
      return Err(z.error);
    }
    pipeline := pipeline + [Transformation(CentringMatrix(ip, [Centre(x.value), Centre(y.value), Centre(z.value)]))];
    var red := stats.value.red;
    if red.Some? && red.value != [] {
      pipeline := pipeline + [WritersText(ColourOrder, output)];
    } else {
      pipeline := pipeline + [WritersText(PlainOrder, output)];
    }
    assert pipeline == PreviewPipeline(ip, input, output, count, statistic).value;
    if !produced(output) {
      return Err(SampleNotCreated);
    }
    return Ok(pipeline);
  }

  /** The preview reads the input, decimates exactly when there are more than 500000 points,
    * centres the cloud, and writes colours exactly when a non-empty Red statistic exists. */
  lemma PreviewPipelineShape(ip: Interpreter, input: string, output: string, count: int, statistic: seq<Dict>)
    requires PreviewPipeline(ip, input, output, count, statistic).Ok?
    ensures var p := PreviewPipeline(ip, input, output, count, statistic).value;
      var red := LastNamed(statistic, "Red");
      |p| == (if count > PreviewPoints then 4 else 3) &&
      p[0] == ReadersLas(input) &&
      (count > PreviewPoints ==> p[1] == Decimation(DecimationStep(count))) &&
      p[|p| - 2].Transformation? &&
      p[|p| - 1] == WritersText(if red.Some? && red.value != [] then ColourOrder else PlainOrder, output)
  {
  }

  /** The preview fails exactly when a statistic lacks a name, or X, Y or Z lacks a numeric
    * minimum or maximum. */
  lemma PreviewPipelineErrors(ip: Interpreter, input: string, output: string, count: int, statistic: seq<Dict>)
    ensures PreviewPipeline(ip, input, output, count, statistic).Ok? <==>
      AllNamed(statistic) && Extent(LastNamed(statistic, "X")).Ok? &&
      Extent(LastNamed(statistic, "Y")).Ok? && Extent(LastNamed(statistic, "Z")).Ok?
  {
  }

  // ---------------------------------------------------------------------------------------
  // export_geojson_from_postgres

  /** `ogr2ogr -f GeoJSON <output> PG:<db> <table>` followed by the options. */
  function Ogr2ogrExport(output: string, db: string, table: string, options: seq<string>): (args: seq<string>)
    ensures |args| == 6 + |options|
    ensures args[..6] == ["ogr2ogr", "-f", "GeoJSON", output, "PG:" + db, table]
    ensures args[6..] == options
  {
    ["ogr2ogr", "-f", "GeoJSON", output, "PG:" + db, table] + options
  }

  /** The arguments as written: `options + ['-limit', ...]` builds a list and drops it, so
    * `options` stays empty. */
  function ExportArgsAsWritten(ip: Interpreter, output: string, db: string, table: string, limit: PyValue): seq<string>
  {
    Ogr2ogrExport(output, db, table, [])
  }

  /** The limit never reaches ogr2ogr: whatever the limit, the arguments are those of no limit,
    * and they stop after the table name. */
  lemma ExportLimitDropped(ip: Interpreter, output: string, db: string, table: string, limit: PyValue)
    ensures ExportArgsAsWritten(ip, output, db, table, limit) == ExportArgs(ip, output, db, table, PyNone)
    ensures |ExportArgsAsWritten(ip, output, db, table, limit)| == 6
  {
  }

  /** The arguments with the limit appended when it is not None. */
  function ExportArgs(ip: Interpreter, output: string, db: string, table: string, limit: PyValue): seq<string>
  {
    Ogr2ogrExport(output, db, table, if limit != PyNone then ["-limit", Str(ip, limit)] else [])
  }

  /** A limit other than None ends the arguments as `-limit <limit>`; None adds nothing. */
  lemma ExportLimitPassed(ip: Interpreter, output: string, db: string, table: string, limit: PyValue)
    ensures var args := ExportArgs(ip, output, db, table, limit);
      if limit == PyNone then |args| == 6
      else |args| == 8 && args[6] == "-limit" && args[7] == Str(ip, limit)
  {
    var args := ExportArgs(ip, output, db, table, limit);
    assert args[6..] == (if limit != PyNone then ["-limit", Str(ip, limit)] else []);
  }
}
