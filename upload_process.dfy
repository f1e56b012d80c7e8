/** The vector branch of the worker's `complete_upload_process`: GDAL's description of the
  * uploaded file is checked (one layer, one geometry field, no multi-geometries, a spatial
  * reference, points or polygons), the geometry type is reduced to `Point` or `Polygon`, and the
  * file is imported into PostGIS and sampled. GDAL's description is a parameter, pyproj's
  * `CRS(wkt).to_epsg()` a host; the metadata file is not modelled. */
module UploadProcess {
  import opened Wrappers
  import opened Numbers
  import opened Text
  import opened PyValues
  import opened WorkerUtils
  import Processes
  import Pipelines

  /** One entry of a layer's `geometryFields`; `coordinateSystem` is absent when GDAL found no
    * spatial reference. */
  datatype GeometryField = GeometryField(geometryType: string, coordinateSystem: Option<Dict>)

  datatype Layer = Layer(geometryFields: seq<GeometryField>, featureCount: int)

  /** `gdal.VectorInfo(path, format='json')`, as far as the upload reads it. */
  datatype VectorInfo = VectorInfo(layers: seq<Layer>, driverShortName: string)

  const MultipleLayers: string := "Multiple layers not supported"
  const MultipleGeometryTypes: string := "Multiple geometry types not supported"
  const MultiGeometry: string := "Multi geometry is not supported"
  const MissingReference: string := "Missing spatial reference system"

  function Unsupported(geometryType: string): string
  {
    geometryType + " type is not supported"
  }

  /** The EPSG code of a truthy coordinate system: `CRS(coordinate_system['wkt']).to_epsg()`. */
  function SpatialReference(cs: Option<Dict>, toEpsg: PyValue -> Result<PyValue>): Result<PyValue>
  {
    if cs.None? || cs.value == [] then Err(MissingReference)
    else if Get(cs.value, "wkt").None? then Err(KeyError)
    else toEpsg(Get(cs.value, "wkt").value)
  }

  /** `if 'Point' in t: t = 'Point'` then `if 'Polygon' in t: t = 'Polygon'`. */
  function NormalisedType(t: string): string
  {
    var t1 := if Contains(t, "Point") then "Point" else t;
    if Contains(t1, "Polygon") then "Polygon" else t1
  }

  /** An accepted layer: its normalised geometry type and EPSG code. */
  datatype Accepted = Accepted(geometryType: string, epsg: PyValue)

  /** The checks, in the order they are made; indexing an empty list raises IndexError. */
  function ValidateVector(info: VectorInfo, toEpsg: PyValue -> Result<PyValue>): Result<Accepted>
  {
    if |info.layers| > 1 then Err(MultipleLayers)
    else if |info.layers| == 0 then Err(IndexError)
    else
      var fields := info.layers[0].geometryFields;
      if |fields| > 1 then Err(MultipleGeometryTypes)
      else if |fields| == 0 then Err(IndexError)
      else
        var t := fields[0].geometryType;
        if Contains(t, "Multi") then Err(MultiGeometry)
        else
          var epsg :- SpatialReference(fields[0].coordinateSystem, toEpsg);
          if !Contains(t, "Polygon") && !Contains(t, "Point") then Err(Unsupported(t))
          else Ok(Accepted(NormalisedType(t), epsg))
  }

  lemma {:induction false} ContainsNoLonger(s: string, sub: string)
    requires Contains(s, sub)
    ensures |sub| <= |s|
  {
    if !StartsWith(s, sub) {
      ContainsNoLonger(s[1..], sub);
    }
  }

  lemma {:induction false} ContainsItself(s: string)
    ensures Contains(s, s)
  {
    assert StartsWith(s, s);
  }

  /** A type naming points becomes `Point`, one naming polygons but not points becomes
    * `Polygon`; either way the name it had is a part of what it was. */
  lemma NormalisedTypeSpec(t: string)
    requires Contains(t, "Point") || Contains(t, "Polygon")
    ensures NormalisedType(t) == "Point" <==> Contains(t, "Point")
    ensures NormalisedType(t) == "Polygon" <==> !Contains(t, "Point")
    ensures Contains(t, NormalisedType(t))
  {
    if Contains(t, "Point") {
      if Contains("Point", "Polygon") {
        ContainsNoLonger("Point", "Polygon");
      }
    } else {
      ContainsItself("Polygon");
    }
  }

  /** The order of the checks: the first that fails decides the message, and a layer passes
    * exactly when it is the only one, has one geometry field of a non-multi point or polygon
    * type and a spatial reference whose code pyproj finds; it is then a `Point` or a
    * `Polygon` layer. */
  lemma ValidateVectorSpec(info: VectorInfo, toEpsg: PyValue -> Result<PyValue>)
    ensures |info.layers| > 1 ==> ValidateVector(info, toEpsg) == Err(MultipleLayers)
    ensures |info.layers| == 1 && |info.layers[0].geometryFields| > 1 ==>
      ValidateVector(info, toEpsg) == Err(MultipleGeometryTypes)
    ensures |info.layers| == 1 && |info.layers[0].geometryFields| == 1 ==>
      var f := info.layers[0].geometryFields[0];
      (Contains(f.geometryType, "Multi") ==> ValidateVector(info, toEpsg) == Err(MultiGeometry)) &&
      (!Contains(f.geometryType, "Multi") && (f.coordinateSystem.None? || f.coordinateSystem.value == []) ==>
        ValidateVector(info, toEpsg) == Err(MissingReference)) &&
      (!Contains(f.geometryType, "Multi") && SpatialReference(f.coordinateSystem, toEpsg).Ok? &&
       !Contains(f.geometryType, "Point") && !Contains(f.geometryType, "Polygon") ==>
        ValidateVector(info, toEpsg) == Err(Unsupported(f.geometryType)))
    ensures ValidateVector(info, toEpsg).Ok? <==>
      |info.layers| == 1 && |info.layers[0].geometryFields| == 1 &&
      !Contains(info.layers[0].geometryFields[0].geometryType, "Multi") &&
      SpatialReference(info.layers[0].geometryFields[0].coordinateSystem, toEpsg).Ok? &&
      (Contains(info.layers[0].geometryFields[0].geometryType, "Point") ||
       Contains(info.layers[0].geometryFields[0].geometryType, "Polygon"))
    ensures ValidateVector(info, toEpsg).Ok? ==>
      var a := ValidateVector(info, toEpsg).value;
      (a.geometryType == "Point" || a.geometryType == "Polygon") &&
      a.epsg == SpatialReference(info.layers[0].geometryFields[0].coordinateSystem, toEpsg).value
  {
    if ValidateVector(info, toEpsg).Ok? {
      NormalisedTypeSpec(info.layers[0].geometryFields[0].geometryType);
    }
  }

  /** `limit`: with the size in KiB above 1000, `feature_count * 1000 / size_kb` (a float),
    * otherwise None. */
  function SampleLimit(contentSize: int, featureCount: int): Option<real>
  {
    var sizeKb := contentSize as real / 1024.0;
    if sizeKb > 1000.0 then Some((featureCount * 1000) as real / sizeKb) else None
  }

  /** Files up to 1000 KiB are sampled whole; a larger one is sampled at about 1000 KiB worth of
    * its features: the limit is the feature count scaled by 1000 KiB over the size, so it is
    * below the feature count (and not negative) whenever there are features. */
  lemma SampleLimitSpec(contentSize: int, featureCount: int)
    ensures SampleLimit(contentSize, featureCount).Some? <==> contentSize > 1024000
    ensures SampleLimit(contentSize, featureCount).Some? ==>
      var limit := SampleLimit(contentSize, featureCount).value;
      limit * contentSize as real == (featureCount * 1024000) as real &&
      (featureCount > 0 ==> 0.0 < limit < featureCount as real)
  {
    var size := contentSize as real;
    var sizeKb := size / 1024.0;
    if sizeKb > 1000.0 {
      var n := (featureCount * 1000) as real;
      var limit := n / sizeKb;
      QuotientTimesDivisor(n, sizeKb);
      assert limit * size == (limit * sizeKb) * 1024.0;
      if featureCount > 0 {
        QuotientBelow(n, sizeKb, featureCount as real);
      }
    }
  }

  lemma QuotientTimesDivisor(n: real, d: real)
    requires d != 0.0
    ensures (n / d) * d == n
  {
  }

  /** `n / d` lies strictly between 0 and `x` when `n` is `x * 1000` and `d` is above 1000. */
  lemma QuotientBelow(n: real, d: real, x: real)
    requires x > 0.0 && n == x * 1000.0 && d > 1000.0
    ensures 0.0 < n / d < x
  {
    var q := n / d;
    QuotientTimesDivisor(n, d);
    ProductPositive(x, d - 1000.0);
    assert x * d - x * 1000.0 == x * (d - 1000.0);
    if q <= 0.0 {
      ProductNonNegative(-q, d);
      assert false;
    }
    if q >= x {
      ProductNonNegative(q - x, d);
      assert false;
    }
  }

  lemma ProductPositive(a: real, b: real)
    requires a > 0.0 && b > 0.0
    ensures a * b > 0.0
  {
  }

  lemma ProductNonNegative(a: real, b: real)
    requires a >= 0.0 && b >= 0.0
    ensures a * b >= 0.0
  {
  }

  /** The `ogr2ogr` command of `import_vector_to_postgres(asset_upload_path, table_name,
    * geometry_column_name, fid_column_name)`; `db` is the connection text. */
  function ImportArgs(db: string, path: string, table: string, geometryColumn: string, fidColumn: string): (args: seq<string>)
  {
    ["ogr2ogr", "-f", "PostgreSQL", "PG:" + db, path, "-t_srs", "EPSG:4979",
     "-lco", "GEOMETRY_NAME=" + geometryColumn, "-lco", "FID=" + fidColumn, "-lco", "SPATIAL_INDEX=GIST",
     "-nln", table, "-dim", "3"]
  }

  /** Calling the four-parameter `import_vector_to_postgres` with positional arguments: any
    * other count raises TypeError before the body runs. */
  function CallImport(ip: Interpreter, db: string, args: seq<PyValue>): (r: Result<seq<string>>)
  {
    if |args| != 4 then Err(TypeError)
    else Ok(ImportArgs(db, Str(ip, args[0]), Str(ip, args[1]), Str(ip, args[2]), Str(ip, args[3])))
  }

  /** The import taking the spatial reference and the height flag as well, as the upload calls
    * it; what it would do with those two is not known, so it runs the same command. */
  function CallImportWithReference(ip: Interpreter, db: string, args: seq<PyValue>): (r: Result<seq<string>>)
  {
    if |args| != 6 then Err(TypeError)
    else Ok(ImportArgs(db, Str(ip, args[0]), Str(ip, args[1]), Str(ip, args[2]), Str(ip, args[3])))
  }

  /** The interpreter, the asset data directory, the database connection text and pyproj. */
  datatype UploadHosts = UploadHosts(ip: Interpreter, assetsData: string, db: string, toEpsg: PyValue -> Result<PyValue>)

  /** The asset row as the upload reads it. */
  datatype Asset = Asset(id: PyValue, extension: string, contentSize: int)

  /** The upload's result (`asset_type`, `geometry_type` and the `epsg` of its payload, whose
    * `metadata` and `sample` flags are then set) and the commands it ran. */
  datatype Upload = Upload(assetType: string, geometryType: string, epsg: PyValue,
                                       importArgs: seq<string>, exportArgs: seq<string>)

  /** The vector branch, with the import called through `importCall` and the sample's export
    * arguments built by `exportArgsOf` from the interpreter, the output, the connection text,
    * the table and the limit. */
  function VectorUploadWith(h: UploadHosts, importCall: seq<PyValue> -> Result<seq<string>>,
                            exportArgsOf: (Interpreter, string, string, string, PyValue) -> seq<string>, asset: Asset,
                            info: VectorInfo, toEllipsoidalHeight: PyValue): Result<Upload>
  {
    var accepted :- ValidateVector(info, h.toEpsg);
    var idText := Str(h.ip, asset.id);
    var path := UploadPath(h.ip, h.assetsData, PyStr(idText + "/index" + asset.extension));
    var table := AssetTableName(h.ip, asset.id);
    var limit := SampleLimit(asset.contentSize, info.layers[0].featureCount);
    var importArgs :- importCall([PyStr(path), PyStr(table), PyStr("geom"), PyStr("gid"), accepted.epsg, toEllipsoidalHeight]);
    var sample := UploadPath(h.ip, h.assetsData, PyStr(idText + "/sample.json"));
    var exportArgs := exportArgsOf(h.ip, sample, h.db, table, if limit.Some? then PyFloat(Finite(limit.value)) else PyNone);
    Ok(Upload(info.driverShortName, accepted.geometryType, accepted.epsg, importArgs, exportArgs))
  }

  /** As written: six arguments to the four-parameter import, and an export that drops the limit. */
  function VectorUploadAsWritten(h: UploadHosts, asset: Asset, info: VectorInfo, toEllipsoidalHeight: PyValue): Result<Upload>
  {
    VectorUploadWith(h, (args: seq<PyValue>) => CallImport(h.ip, h.db, args), Processes.ExportArgsAsWritten,
                     asset, info, toEllipsoidalHeight)
  }

  /** With an import that takes the six arguments it is given; the export is as written and
    * drops the limit. */
  function CompleteVectorUpload(h: UploadHosts, asset: Asset, info: VectorInfo, toEllipsoidalHeight: PyValue): Result<Upload>
  {
    VectorUploadWith(h, (args: seq<PyValue>) => CallImportWithReference(h.ip, h.db, args), Processes.ExportArgsAsWritten,
                     asset, info, toEllipsoidalHeight)
  }

  /** With both corrections: the import takes its six arguments and the export passes the limit. */
  function CompleteVectorUploadSampled(h: UploadHosts, asset: Asset, info: VectorInfo, toEllipsoidalHeight: PyValue): Result<Upload>
  {
    VectorUploadWith(h, (args: seq<PyValue>) => CallImportWithReference(h.ip, h.db, args), Processes.ExportArgs,
                     asset, info, toEllipsoidalHeight)
  }

  /** As written, every vector file that passes the checks fails at the import with TypeError;
    * one that does not pass fails with the check's message. */
  lemma VectorUploadAsWrittenFails(h: UploadHosts, asset: Asset, info: VectorInfo, toEllipsoidalHeight: PyValue)
    ensures VectorUploadAsWritten(h, asset, info, toEllipsoidalHeight).Err?
    ensures ValidateVector(info, h.toEpsg).Ok? ==> VectorUploadAsWritten(h, asset, info, toEllipsoidalHeight) == Err(TypeError)
    ensures ValidateVector(info, h.toEpsg).Err? ==>
      VectorUploadAsWritten(h, asset, info, toEllipsoidalHeight) == Err(ValidateVector(info, h.toEpsg).error)
  {
  }

  /** With the import taking its six arguments, an upload succeeds exactly when the checks pass;
    * it is then a `Point` or `Polygon` asset that a pipeline can process, imported into the
    * asset's table, and its sample is exported without `-limit` whatever the file's size. */
  lemma VectorUploadSpec(h: UploadHosts, asset: Asset, info: VectorInfo, toEllipsoidalHeight: PyValue)
    ensures CompleteVectorUpload(h, asset, info, toEllipsoidalHeight).Ok? <==> ValidateVector(info, h.toEpsg).Ok?
    ensures CompleteVectorUpload(h, asset, info, toEllipsoidalHeight).Ok? ==>
      var u := CompleteVectorUpload(h, asset, info, toEllipsoidalHeight).value;
      u.assetType == info.driverShortName &&
      u.epsg == ValidateVector(info, h.toEpsg).value.epsg &&
      (u.geometryType == "Point" || u.geometryType == "Polygon") &&
      Pipelines.GetPipelineTask(PyStr(u.geometryType)).Some? &&
      u.importArgs[14] == AssetTableName(h.ip, asset.id) &&
      |u.exportArgs| == 6
  {
    ValidateVectorSpec(info, h.toEpsg);
    if ValidateVector(info, h.toEpsg).Ok? {
      var accepted := ValidateVector(info, h.toEpsg).value;
      var idText := Str(h.ip, asset.id);
      var path := UploadPath(h.ip, h.assetsData, PyStr(idText + "/index" + asset.extension));
      var table := AssetTableName(h.ip, asset.id);
      var limit := SampleLimit(asset.contentSize, info.layers[0].featureCount);
      var args := [PyStr(path), PyStr(table), PyStr("geom"), PyStr("gid"), accepted.epsg, toEllipsoidalHeight];
      var importArgs := ImportArgs(h.db, path, table, "geom", "gid");
      assert CallImportWithReference(h.ip, h.db, args) == Ok(importArgs);
      var sample := UploadPath(h.ip, h.assetsData, PyStr(idText + "/sample.json"));
      var limitValue := if limit.Some? then PyFloat(Finite(limit.value)) else PyNone;
      var exportArgs := Processes.ExportArgsAsWritten(h.ip, sample, h.db, table, limitValue);
      assert CompleteVectorUpload(h, asset, info, toEllipsoidalHeight) ==
        Ok(Upload(info.driverShortName, accepted.geometryType, accepted.epsg, importArgs, exportArgs));
      Processes.ExportLimitDropped(h.ip, sample, h.db, table, limitValue);
    }
  }

  /** With the export's limit passed as well, the upload is the one above except that its sample
    * is exported with `-limit` exactly when the file is above 1000 KiB. */
  lemma VectorUploadSampledSpec(h: UploadHosts, asset: Asset, info: VectorInfo, toEllipsoidalHeight: PyValue)
    ensures CompleteVectorUploadSampled(h, asset, info, toEllipsoidalHeight).Ok? <==>
            CompleteVectorUpload(h, asset, info, toEllipsoidalHeight).Ok?
    ensures CompleteVectorUploadSampled(h, asset, info, toEllipsoidalHeight).Ok? ==>
      var u := CompleteVectorUpload(h, asset, info, toEllipsoidalHeight).value;
      var v := CompleteVectorUploadSampled(h, asset, info, toEllipsoidalHeight).value;
      v.(exportArgs := u.exportArgs) == u &&
      |v.exportArgs| >= 6 && v.exportArgs[..6] == u.exportArgs &&
      (|v.exportArgs| == 8 <==> asset.contentSize > 1024000) &&
      (asset.contentSize <= 1024000 ==> v.exportArgs == u.exportArgs)
  {
    if ValidateVector(info, h.toEpsg).Ok? {
      var idText := Str(h.ip, asset.id);
      var table := AssetTableName(h.ip, asset.id);
      var limit := SampleLimit(asset.contentSize, info.layers[0].featureCount);
      var sample := UploadPath(h.ip, h.assetsData, PyStr(idText + "/sample.json"));
      var limitValue := if limit.Some? then PyFloat(Finite(limit.value)) else PyNone;
      SampleLimitSpec(asset.contentSize, info.layers[0].featureCount);
      Processes.ExportLimitPassed(h.ip, sample, h.db, table, limitValue);
      Processes.ExportLimitDropped(h.ip, sample, h.db, table, limitValue);
      var exported := Processes.ExportArgs(h.ip, sample, h.db, table, limitValue);
      assert exported[..6] == Processes.ExportArgs(h.ip, sample, h.db, table, PyNone);
    }
  }
}
