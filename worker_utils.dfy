/** The backend worker's naming helpers: table names for assets and pipelines, and the path of
  * an uploaded file under the asset data directory. */
module WorkerUtils {
  import opened Wrappers
  import opened Text
  import opened PyValues

  /** `os.path.join(a, b)`: an absolute `b` replaces everything before it; otherwise a `/` is
    * put between the two unless `a` is empty or already ends with one. */
  function PathJoin2(a: string, b: string): string
  {
    if StartsWith(b, "/") then b
    else if a == [] || a[|a| - 1] == '/' then a + b
    else a + "/" + b
  }

  /** `os.path.join(parts[0], parts[1], ...)` */
  function PathJoin(parts: seq<string>): string
    requires |parts| > 0
  {
    if |parts| == 1 then parts[0] else PathJoin2(PathJoin(parts[..|parts| - 1]), parts[|parts| - 1])
  }

  /** `f"{prefix}{id}"` with every `-` of the id replaced by `_`. */
  function TableName(ip: Interpreter, prefix: string, id: PyValue): (name: string)
    ensures |name| == |prefix| + |Str(ip, id)|
    ensures name[..|prefix|] == prefix
    ensures forall i :: 0 <= i < |Str(ip, id)| ==>
      name[|prefix| + i] == (if Str(ip, id)[i] == '-' then '_' else Str(ip, id)[i])
  {
    prefix + ReplaceChar(Str(ip, id), '-', '_')
  }

  /** `get_asset_table_name(asset_id)` */
  function AssetTableName(ip: Interpreter, id: PyValue): string
  {
    TableName(ip, "asset_", id)
  }

  /** `get_pipeline_table_name(pipeline_id)` */
  function PipelineTableName(ip: Interpreter, id: PyValue): string
  {
    TableName(ip, "pipeline_", id)
  }

  /** A table name never holds a `-` (which SQL would read as a minus) when its prefix has none,
    * and keeps every other character of the id in place. */
  lemma TableNameHasNoDash(ip: Interpreter, prefix: string, id: PyValue)
    requires '-' !in prefix
    ensures '-' !in TableName(ip, prefix, id)
  {
    var name := TableName(ip, prefix, id);
    forall i | 0 <= i < |name|
      ensures name[i] != '-'
    {
      if i >= |prefix| {
        assert name[i] == name[|prefix| + (i - |prefix|)];
      } else {
        assert name[i] == name[..|prefix|][i];
      }
    }
  }

  /** The two helpers' names: no `-`, and as long as the prefix plus the id's text. */
  lemma GeneratedTableNames(ip: Interpreter, id: PyValue)
    ensures '-' !in AssetTableName(ip, id) && |AssetTableName(ip, id)| == 6 + |Str(ip, id)|
    ensures '-' !in PipelineTableName(ip, id) && |PipelineTableName(ip, id)| == 9 + |Str(ip, id)|
    ensures StartsWith(AssetTableName(ip, id), "asset_")
    ensures StartsWith(PipelineTableName(ip, id), "pipeline_")
  {
    TableNameHasNoDash(ip, "asset_", id);
    TableNameHasNoDash(ip, "pipeline_", id);
  }

  /** `get_asset_upload_path(pathname)`: `os.path.join(ASSETS_DATA, "upload", f"{pathname}")`. */
  function UploadPath(ip: Interpreter, assetsData: string, pathname: PyValue): string
  {
    PathJoin([assetsData, "upload", Str(ip, pathname)])
  }

  /** A relative name lands under `<ASSETS_DATA>/upload/`; an absolute one replaces the whole
    * path, so the result leaves the upload directory. */
  lemma UploadPathPlacement(ip: Interpreter, assetsData: string, pathname: PyValue)
    ensures var name := Str(ip, pathname);
      UploadPath(ip, assetsData, pathname) ==
        if StartsWith(name, "/") then name else PathJoin2(assetsData, "upload") + "/" + name
  {
    var name := Str(ip, pathname);
    var parts := [assetsData, "upload", name];
    UploadDirectory(assetsData);
    assert parts[..2] == [assetsData, "upload"];
    assert PathJoin(parts[..2]) == PathJoin2(assetsData, "upload") by {
      assert parts[..2][..1] == [assetsData];
    }
  }

  /** `<ASSETS_DATA>/upload` is never empty and never ends with a separator. */
  lemma UploadDirectory(assetsData: string)
    ensures var dir := PathJoin2(assetsData, "upload"); |dir| > 0 && dir[|dir| - 1] == 'd'
  {
    assert !StartsWith("upload", "/") by {
      assert "upload"[0] != "/"[0];
    }
    var dir := PathJoin2(assetsData, "upload");
    assert dir[|dir| - 1] == "upload"[5];
  }

  /** Calling `get_asset_upload_path` with a list of positional arguments: it declares one
    * parameter, so any other count raises TypeError before the body runs. */
  function CallUploadPath(ip: Interpreter, assetsData: string, args: seq<PyValue>): (r: Result<string>)
    ensures r.Ok? <==> |args| == 1
    ensures r.Err? ==> r.error == TypeError
  {
    if |args| != 1 then Err(TypeError) else Ok(UploadPath(ip, assetsData, args[0]))
  }

  /** The three-parameter form the module keeps commented out:
    * `os.path.join(ASSETS_DATA, "upload", f"{asset_id}", f"{asset_id}/{name}{extension}")`. */
  function AssetFilePath(ip: Interpreter, assetsData: string, id: PyValue, extension: string, name: string): string
  {
    var idText := Str(ip, id);
    PathJoin([assetsData, "upload", idText, idText + "/" + name + extension])
  }

  /** Its default `name` is `index`. */
  function AssetIndexPath(ip: Interpreter, assetsData: string, id: PyValue, extension: string): string
  {
    AssetFilePath(ip, assetsData, id, extension, "index")
  }

  /** For an id whose text is non-empty, relative and without a trailing `/`, the file lives in `<upload>/<id>/<id>/`
    * and its name ends with the name and extension asked for. */
  lemma AssetFilePathShape(ip: Interpreter, assetsData: string, id: PyValue, extension: string, name: string)
    requires Str(ip, id) != [] && !StartsWith(Str(ip, id), "/") && Str(ip, id)[|Str(ip, id)| - 1] != '/'
    ensures var idText := Str(ip, id);
      AssetFilePath(ip, assetsData, id, extension, name) ==
        PathJoin2(assetsData, "upload") + "/" + idText + "/" + idText + "/" + name + extension
  {
    var idText := Str(ip, id);
    var parts := [assetsData, "upload", idText, idText + "/" + name + extension];
    var dir := PathJoin2(assetsData, "upload");
    UploadDirectory(assetsData);
    assert PathJoin([assetsData, "upload"]) == dir by {
      assert [assetsData, "upload"][..1] == [assetsData];
    }
    assert parts[..3][..2] == [assetsData, "upload"];
    assert PathJoin(parts[..3]) == PathJoin2(dir, idText);
    assert !StartsWith(idText, "/");
    assert PathJoin(parts[..3]) == dir + "/" + idText;
    assert !StartsWith(idText + "/" + name + extension, "/") by {
      assert (idText + "/" + name + extension)[0] == idText[0];
    }
    assert idText[|idText| - 1] == (dir + "/" + idText)[|dir + "/" + idText| - 1];
    assert PathJoin(parts) == PathJoin2(dir + "/" + idText, idText + "/" + name + extension);
  }

  /** The commented-out helper's `<id>/<id>/` is never where the worker tasks store an upload,
    * `<upload>/<id>/index<extension>`: its path is longer by the id and a separator. */
  lemma CommentedHelperMissesUploads(ip: Interpreter, assetsData: string, id: PyValue, extension: string)
    requires Str(ip, id) != [] && !StartsWith(Str(ip, id), "/") && Str(ip, id)[|Str(ip, id)| - 1] != '/'
    ensures AssetIndexPath(ip, assetsData, id, extension) !=
      UploadPath(ip, assetsData, PyStr(Str(ip, id) + "/index" + extension))
  {
    var idText := Str(ip, id);
    var name := idText + "/index" + extension;
    AssetFilePathShape(ip, assetsData, id, extension, "index");
    UploadPathPlacement(ip, assetsData, PyStr(name));
    assert !StartsWith(name, "/") by {
      assert name[0] == idText[0];
    }
    var dir := PathJoin2(assetsData, "upload");
    assert |AssetIndexPath(ip, assetsData, id, extension)| == |dir| + 2 * |idText| + 8 + |extension|;
    assert |UploadPath(ip, assetsData, PyStr(name))| == |dir| + |idText| + 7 + |extension|;
  }
}
