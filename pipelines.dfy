/** The backend's pipeline task endpoint: which worker task a pipeline starts, chosen by the
  * geometry type of its asset, and the run/cancel transition of its task fields kept in the
  * pipeline record. The database, Celery's queue and the revocation are parameters: the records
  * are given, `start` stands for `task_method.delay` (nothing when it raises) and `revoke` for
  * `AsyncResult(id).revoke(terminate=True)` (false when it raises). */
module Pipelines {
  import opened Wrappers
  import opened PyValues

  /** The worker tasks a pipeline can start. */
  datatype TaskKind = PointInstanceTask | MeshTask | PointCloudTask

  /** `get_pipeline_task(pipeline_extended)`, given the asset's `geometry_type`. */
  function GetPipelineTask(geometryType: PyValue): Option<TaskKind>
  {
    if geometryType == PyStr("Point") then Some(PointInstanceTask)
    else if geometryType == PyStr("Polygon") then Some(MeshTask)
    else if geometryType == PyStr("PointCloud") then Some(PointCloudTask)
    else None
  }

  /** Points become instances, polygons meshes, point clouds point-cloud tilesets; any other
    * geometry type, raster and photogrammetry assets included, has no task. */
  lemma GetPipelineTaskSpec(geometryType: PyValue)
    ensures GetPipelineTask(geometryType) == Some(PointInstanceTask) <==> geometryType == PyStr("Point")
    ensures GetPipelineTask(geometryType) == Some(MeshTask) <==> geometryType == PyStr("Polygon")
    ensures GetPipelineTask(geometryType) == Some(PointCloudTask) <==> geometryType == PyStr("PointCloud")
    ensures GetPipelineTask(geometryType).None? <==>
      geometryType !in [PyStr("Point"), PyStr("Polygon"), PyStr("PointCloud")]
  {
  }

  /** Celery's state names. */
  const Pending: string := "PENDING"
  const Revoked: string := "REVOKED"

  /** `task_id`, `task_status` and `task_result` of a pipeline. */
  datatype TaskFields = TaskFields(taskId: Option<string>, taskStatus: Option<string>, taskResult: PyValue)

  datatype User = User(id: string, isSuperuser: bool)

  /** The asset a pipeline is linked to, as far as the endpoint reads it. */
  datatype AssetRecord = AssetRecord(ownerId: string, geometryType: PyValue)

  /** A task just handed to the queue: its id, state and (usually absent) result. */
  datatype Started = Started(id: string, status: string, result: PyValue)

  /** `{**pipeline_out, 'action_type': action_type}`: the new task fields, when the call set them. */
  datatype Response = Response(out: Option<TaskFields>, actionType: string)

  /** What the endpoint answers: the response, or the HTTP error it raises. */
  datatype Answer = Answered(response: Response) | HttpError(status: int, detail: string)

  const GenericFailure: string := "It was not possible to initialize the requested task"

  /** A pipeline record; only its task fields change. */
  class Pipeline {
    const ownerId: string
    var taskId: Option<string>
    var taskStatus: Option<string>
    var taskResult: PyValue

    constructor(ownerId: string, fields: TaskFields)
      ensures this.ownerId == ownerId && Fields() == fields
    {
      this.ownerId := ownerId;
      taskId, taskStatus, taskResult := fields.taskId, fields.taskStatus, fields.taskResult;
    }

    function Fields(): TaskFields
      reads this
    {
      TaskFields(taskId, taskStatus, taskResult)
    }
  }

  /** The permission checks, in the order the endpoint makes them. */
  function Access(ownerId: Option<string>, asset: Option<AssetRecord>, user: User): Option<Answer>
  {
    if ownerId.None? then Some(HttpError(404, "Pipeline not found"))
    else if !user.isSuperuser && ownerId.value != user.id then Some(HttpError(400, "Not enough permissions"))
    else if asset.None? then Some(HttpError(404, "There is not asset associated with this pipeline"))
    else if !user.isSuperuser && asset.value.ownerId != user.id then
      Some(HttpError(400, "Not enough permissions for linked asset"))
    else None
  }

  /** A truthy `task_id`. */
  predicate HasTaskId(fields: TaskFields)
  {
    fields.taskId.Some? && fields.taskId.value != ""
  }

  /** The endpoint once access is granted: the answer and the record's task fields afterwards. An unknown
    * geometry type or a queue that raises gives the generic 500, whatever the reason. */
  function Transition(fields: TaskFields, asset: AssetRecord, actionType: string,
                      start: TaskKind -> Option<Started>, revoke: string -> bool): (Answer, TaskFields)
  {
    if actionType == "run" && fields.taskStatus != Some(Pending) then
      var kind := GetPipelineTask(asset.geometryType);
      if kind.None? || start(kind.value).None? then (HttpError(500, GenericFailure), fields)
      else
        var task := start(kind.value).value;
        var out := TaskFields(Some(task.id), Some(task.status), task.result);
        (Answered(Response(Some(out), actionType)), out)
    else if actionType == "cancel" && HasTaskId(fields) && fields.taskStatus == Some(Pending) then
      if !revoke(fields.taskId.value) then (HttpError(500, GenericFailure), fields)
      else
        var out := TaskFields(fields.taskId, Some(Revoked), PyNone);
        (Answered(Response(Some(out), actionType)), out)
    else (Answered(Response(None, actionType)), fields)
  }

  /** `process_pipeline_task(id, action_type)`: the pipeline is `null` when there is none with
    * that id; its task fields are updated in place. */
  method ProcessPipelineTask(pipeline: Pipeline?, asset: Option<AssetRecord>, user: User, actionType: string,
                             start: TaskKind -> Option<Started>, revoke: string -> bool)
    returns (answer: Answer)
    modifies pipeline
    ensures pipeline == null ==> answer == HttpError(404, "Pipeline not found")
    ensures pipeline != null && Access(Some(pipeline.ownerId), asset, user).Some? ==>
      answer == Access(Some(pipeline.ownerId), asset, user).value && pipeline.Fields() == old(pipeline.Fields())
    ensures pipeline != null && Access(Some(pipeline.ownerId), asset, user).None? ==>
      (answer, pipeline.Fields()) == Transition(old(pipeline.Fields()), asset.value, actionType, start, revoke)
  {
    if pipeline == null {
      return HttpError(404, "Pipeline not found");
    }
    var denied := Access(Some(pipeline.ownerId), asset, user);
    if denied.Some? {
      return denied.value;
    }
    var status := pipeline.taskStatus;
    var out: Option<TaskFields> := None;
    if actionType == "run" && status != Some(Pending) {
      var kind := GetPipelineTask(asset.value.geometryType);
      if kind.None? {
        return HttpError(500, GenericFailure);
      }
      var task := start(kind.value);
      if task.None? {
        return HttpError(500, GenericFailure);
      }
      out := Some(TaskFields(Some(task.value.id), Some(task.value.status), task.value.result));
      pipeline.taskId, pipeline.taskStatus, pipeline.taskResult := out.value.taskId, out.value.taskStatus, out.value.taskResult;
    }
    if actionType == "cancel" && pipeline.taskId.Some? && pipeline.taskId.value != "" && status == Some(Pending) {
      if !revoke(pipeline.taskId.value) {
        return HttpError(500, GenericFailure);
      }
      out := Some(TaskFields(pipeline.taskId, Some(Revoked), PyNone));
      pipeline.taskStatus, pipeline.taskResult := Some(Revoked), PyNone;
    }
    answer := Answered(Response(out, actionType));
  }

  /** A run starts a task only when none is pending, and then stores exactly the queued task's id,
    * state and result; a failed start changes nothing. */
  lemma RunOnlyWhenNotPending(fields: TaskFields, asset: AssetRecord, start: TaskKind -> Option<Started>, revoke: string -> bool)
    ensures var (answer, after) := Transition(fields, asset, "run", start, revoke);
      (fields.taskStatus == Some(Pending) ==> answer == Answered(Response(None, "run")) && after == fields) &&
      (fields.taskStatus != Some(Pending) && GetPipelineTask(asset.geometryType).Some? &&
       start(GetPipelineTask(asset.geometryType).value).Some? ==>
        var task := start(GetPipelineTask(asset.geometryType).value).value;
        after == TaskFields(Some(task.id), Some(task.status), task.result) &&
        answer == Answered(Response(Some(after), "run"))) &&
      (answer.HttpError? ==> answer == HttpError(500, GenericFailure) && after == fields)
  {
  }

  /** A cancel acts only on a pending task with an id, and then marks it revoked with no result,
    * keeping its id. */
  lemma CancelOnlyWhenPending(fields: TaskFields, asset: AssetRecord, start: TaskKind -> Option<Started>, revoke: string -> bool)
    ensures var (answer, after) := Transition(fields, asset, "cancel", start, revoke);
      (!(HasTaskId(fields) && fields.taskStatus == Some(Pending)) ==>
        answer == Answered(Response(None, "cancel")) && after == fields) &&
      (HasTaskId(fields) && fields.taskStatus == Some(Pending) && revoke(fields.taskId.value) ==>
        after == TaskFields(fields.taskId, Some(Revoked), PyNone) && answer == Answered(Response(Some(after), "cancel"))) &&
      (answer.HttpError? ==> answer == HttpError(500, GenericFailure) && after == fields)
  {
  }

  /** Any other action changes nothing and answers only with the action. */
  lemma OtherActionsChangeNothing(fields: TaskFields, asset: AssetRecord, actionType: string,
                                  start: TaskKind -> Option<Started>, revoke: string -> bool)
    requires actionType != "run" && actionType != "cancel"
    ensures Transition(fields, asset, actionType, start, revoke) == (Answered(Response(None, actionType)), fields)
  {
  }

  /** An asset whose geometry type has no task never starts one: the run answers with the generic
    * 500, not with the reason. */
  lemma UnknownGeometryIsGeneric(fields: TaskFields, asset: AssetRecord, start: TaskKind -> Option<Started>, revoke: string -> bool)
    requires GetPipelineTask(asset.geometryType).None? && fields.taskStatus != Some(Pending)
    ensures Transition(fields, asset, "run", start, revoke) == (HttpError(500, GenericFailure), fields)
  {
  }

  /** A run that leaves its task pending cannot be run again; a cancel of it then revokes it,
    * after which it can be run again. */
  lemma RunCancelRun(fields: TaskFields, asset: AssetRecord, start: TaskKind -> Option<Started>, revoke: string -> bool)
    requires var kind := GetPipelineTask(asset.geometryType);
      fields.taskStatus != Some(Pending) && kind.Some? && start(kind.value).Some? &&
      start(kind.value).value.status == Pending && start(kind.value).value.id != "" &&
      revoke(start(kind.value).value.id)
    ensures var first := Transition(fields, asset, "run", start, revoke).1;
      Transition(first, asset, "run", start, revoke).1 == first &&
      Transition(first, asset, "cancel", start, revoke).1.taskStatus == Some(Revoked) &&
      Transition(Transition(first, asset, "cancel", start, revoke).1, asset, "run", start, revoke).0.Answered? &&
      Transition(Transition(first, asset, "cancel", start, revoke).1, asset, "run", start, revoke).0.response.out.Some?
  {
    var first := Transition(fields, asset, "run", start, revoke).1;
    var task := start(GetPipelineTask(asset.geometryType).value).value;
    assert first == TaskFields(Some(task.id), Some(Pending), task.result);
    var cancelled := Transition(first, asset, "cancel", start, revoke).1;
    assert cancelled.taskStatus == Some(Revoked);
    assert Revoked != Pending by {
      assert Revoked[0] != Pending[0];
    }
  }

  /** Access is checked before anything else: a missing pipeline or asset is 404, a user who owns
    * neither and is no superuser gets 400, and a superuser passes every ownership check. */
  lemma AccessOrder(ownerId: Option<string>, asset: Option<AssetRecord>, user: User)
    ensures ownerId.None? ==> Access(ownerId, asset, user) == Some(HttpError(404, "Pipeline not found"))
    ensures ownerId.Some? && user.isSuperuser ==>
      (Access(ownerId, asset, user).None? <==> asset.Some?)
    ensures ownerId.Some? && !user.isSuperuser && ownerId.value != user.id ==>
      Access(ownerId, asset, user) == Some(HttpError(400, "Not enough permissions"))
    ensures Access(ownerId, asset, user).None? <==>
      ownerId.Some? && asset.Some? && (user.isSuperuser || (ownerId.value == user.id && asset.value.ownerId == user.id))
  {
  }
}
