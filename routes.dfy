/**
 * The HTTP API (app/api/routes.py): `POST /upload` accepts a file, records the
 * task as processing and enqueues the OCR job; `GET /status/<task_id>` reports
 * a task's status.
 *
 * A request is the presence and name of its `file` part. `uuid.uuid4()` is the
 * parameter `newId`, werkzeug's `secure_filename` the function `secureName`,
 * and the upload folder and allowed extensions are the configuration values.
 * Saving the upload and enqueueing the job are effects in a trace; the status
 * write goes to the task table.
 */
module Routes {
  import opened Common
  import opened TaskStore

  /** ALLOWED_EXTENSIONS when the environment does not set it (app/config/config.py:17). */
  const DefaultAllowedExtensions: set<string> := {"pdf", "png", "jpg", "jpeg", "tiff"}

  /** UPLOAD_FOLDER when the environment does not set it (app/config/config.py:16). */
  const DefaultUploadFolder: string := "temp"

  /** `filename.rsplit('.', 1)[1]`: the text after the last dot. */
  function AfterLastDot(filename: string): (r: string)
    requires '.' in filename
    ensures '.' !in r
  {
    filename[RFind(filename, '.') + 1..]
  }

  /** allowed_file: there is a dot and the lower-cased text after the last one is allowed. */
  predicate AllowedFile(filename: string, allowed: set<string>)
  {
    '.' in filename && Lower(AfterLastDot(filename)) in allowed
  }

  /** The dot at index i is followed by a dot-free suffix whose lower-cased form is allowed. */
  predicate AllowedSuffixAt(filename: string, allowed: set<string>, i: int)
  {
    0 <= i < |filename| && filename[i] == '.' && '.' !in filename[i + 1..] && Lower(filename[i + 1..]) in allowed
  }

  /** allowed_file holds exactly when some dot is followed by a dot-free, allowed (lower-cased) suffix. */
  lemma AllowedFileIff(filename: string, allowed: set<string>)
    ensures AllowedFile(filename, allowed) <==> exists i :: AllowedSuffixAt(filename, allowed, i)
  {
    if AllowedFile(filename, allowed) {
      assert AllowedSuffixAt(filename, allowed, RFind(filename, '.'));
    }
    forall i | AllowedSuffixAt(filename, allowed, i)
      ensures AllowedFile(filename, allowed)
    {
      assert forall j :: i < j < |filename| ==> filename[j] != '.' by {
        forall j | i < j < |filename|
          ensures filename[j] != '.'
        {
          assert filename[j] == filename[i + 1..][j - i - 1];
        }
      }
      assert RFind(filename, '.') == i;
    }
  }

  /** An upper-case extension is accepted, ".tif" is not on the default list, and a name without a dot is refused. */
  lemma DefaultExtensionExamples()
    ensures AllowedFile("scan.TIFF", DefaultAllowedExtensions)
    ensures !AllowedFile("scan.tif", DefaultAllowedExtensions)
    ensures !AllowedFile("README", DefaultAllowedExtensions)
  {
    assert "scan.TIFF"[4] == '.';
    assert RFind("scan.TIFF", '.') == 4;
    assert AfterLastDot("scan.TIFF") == "TIFF";
    assert Lower("TIFF") == "tiff";
    assert "scan.tif"[4] == '.';
    assert RFind("scan.tif", '.') == 4;
    assert AfterLastDot("scan.tif") == "tif";
    assert Lower("tif") == "tif";
    assert forall j :: 0 <= j < |"README"| ==> "README"[j] != '.';
  }

  // ---------------------------------------------------------------- responses

  /** A JSON response: the status code and an object of strings and nulls. */
  datatype Response = Response(code: nat, body: map<string, Option<string>>)

  function ErrorResponse(code: nat, msg: string): Response
  {
    Response(code, map["error" := Some(msg)])
  }

  // ---------------------------------------------------------------- upload_file

  /** The multipart request: no `file` part, or one with this client file name. */
  datatype Request = NoFilePart | FilePart(filename: string)

  /** The side effects of an upload, in order. */
  datatype UploadEffect =
    | SavedUpload(path: string)
    | WroteStatus(taskId: string, status: string)
    | Enqueued(taskId: string, path: string)

  /** Where the upload is stored: the upload folder, "<task_id>_<secure name>". */
  function UploadPath(folder: string, taskId: string, safeName: string): string
  {
    PathJoin(folder, taskId + "_" + safeName)
  }

  /** upload_file: the response and the effects, validation first. */
  function UploadSpec(req: Request, allowed: set<string>, folder: string, newId: string, secureName: string -> string): (r: (Response, seq<UploadEffect>))
    ensures r.0.code == 200 <==> req.FilePart? && req.filename != "" && AllowedFile(req.filename, allowed)
    ensures r.0.code != 200 ==> r.0.code == 400 && "error" in r.0.body && r.1 == []
    ensures r.0.code == 200 ==> r.0.body == map["task_id" := Some(newId)]
  {
    match req
    case NoFilePart => (ErrorResponse(400, "没有上传文件"), [])
    case FilePart(name) =>
      if name == "" then (ErrorResponse(400, "未选择文件"), [])
      else if !AllowedFile(name, allowed) then (ErrorResponse(400, "不支持的文件类型"), [])
      else
        var path := UploadPath(folder, newId, secureName(name));
        (Response(200, map["task_id" := Some(newId)]),
         [SavedUpload(path), WroteStatus(newId, Value(Processing)), Enqueued(newId, path)])
  }

  method UploadFile(table: TaskTable, req: Request, allowed: set<string>, folder: string,
                    newId: string, secureName: string -> string, now: nat)
    returns (resp: Response, effects: seq<UploadEffect>)
    modifies table
    ensures (resp, effects) == UploadSpec(req, allowed, folder, newId, secureName)
    ensures resp.code == 200 ==> table.rows == Upsert(old(table.rows), newId, Value(Processing), None, None, now)
    ensures resp.code != 200 ==> table.rows == old(table.rows)
  {
    if req.NoFilePart? {
      return ErrorResponse(400, "没有上传文件"), [];
    }
    var name := req.filename;
    if name == "" {
      return ErrorResponse(400, "未选择文件"), [];
    }
    if !AllowedFile(name, allowed) {
      return ErrorResponse(400, "不支持的文件类型"), [];
    }
    var taskId := newId;
    var filename := secureName(name);
    var path := UploadPath(folder, taskId, filename);
    effects := [SavedUpload(path)];
    table.SaveTaskStatus(taskId, Value(Processing), None, None, now);
    effects := effects + [WroteStatus(taskId, Value(Processing))];
    effects := effects + [Enqueued(taskId, path)];
    resp := Response(200, map["task_id" := Some(taskId)]);
    assert effects == [SavedUpload(path), WroteStatus(taskId, Value(Processing)), Enqueued(taskId, path)];
  }

  /**
   * An accepted upload saves the file once, records the task as processing,
   * then enqueues it once, all for the new ID and the same stored path.
   */
  lemma UploadEffectOrder(name: string, allowed: set<string>, folder: string, newId: string, secureName: string -> string)
    requires name != "" && AllowedFile(name, allowed)
    ensures UploadSpec(FilePart(name), allowed, folder, newId, secureName).1
         == [SavedUpload(UploadPath(folder, newId, secureName(name))),
             WroteStatus(newId, "processing"),
             Enqueued(newId, UploadPath(folder, newId, secureName(name)))]
  {
  }

  /** The three refusals, each with its own message. */
  lemma UploadRefusals(name: string, allowed: set<string>, folder: string, newId: string, secureName: string -> string)
    ensures UploadSpec(NoFilePart, allowed, folder, newId, secureName).0 == ErrorResponse(400, "没有上传文件")
    ensures UploadSpec(FilePart(""), allowed, folder, newId, secureName).0 == ErrorResponse(400, "未选择文件")
    ensures name != "" && !AllowedFile(name, allowed) ==>
      UploadSpec(FilePart(name), allowed, folder, newId, secureName).0 == ErrorResponse(400, "不支持的文件类型")
  {
  }

  // ---------------------------------------------------------------- get_status

  /** get_status: 404 for an unknown ID; otherwise the status, plus the URL when completed or the error when failed. */
  function StatusResponse(info: Option<TaskInfo>): (r: Response)
    ensures r.code == 404 <==> info.None?
    ensures info.None? ==> r == ErrorResponse(404, "Task ID not found")
    ensures info.Some? ==> r.code == 200 && "status" in r.body && r.body["status"] == Some(info.value.status)
    ensures info.Some? ==> ("minio_url" in r.body <==> info.value.status == "completed")
    ensures info.Some? ==> ("error" in r.body <==> info.value.status == "failed")
    ensures info.Some? ==> r.body.Keys <= {"status", "minio_url", "error"}
    ensures "minio_url" in r.body ==> r.body["minio_url"] == info.value.resultUrl
    ensures info.Some? && "error" in r.body ==> r.body["error"] == info.value.error
  {
    match info
    case None => ErrorResponse(404, "Task ID not found")
    case Some(task) =>
      var response := map["status" := Some(task.status)];
      if task.status == Value(Completed) then Response(200, response["minio_url" := task.resultUrl])
      else if task.status == Value(Failed) then Response(200, response["error" := task.error])
      else Response(200, response)
  }

  method GetStatus(table: TaskTable, taskId: string) returns (r: Response)
    ensures r == StatusResponse(Lookup(table.rows, taskId))
  {
    var taskInfo := table.GetTaskStatus(taskId);
    if taskInfo.None? {
      return ErrorResponse(404, "Task ID not found");
    }
    var response := map["status" := Some(taskInfo.value.status)];
    if taskInfo.value.status == Value(Completed) {
      response := response["minio_url" := taskInfo.value.resultUrl];
    } else if taskInfo.value.status == Value(Failed) {
      response := response["error" := taskInfo.value.error];
    }
    r := Response(200, response);
  }

  /** Polling right after an accepted upload reports "processing" and nothing else. */
  lemma UploadThenPoll(rows: map<string, Row>, newId: string, now: nat)
    ensures StatusResponse(Lookup(Upsert(rows, newId, Value(Processing), None, None, now), newId))
         == Response(200, map["status" := Some("processing")])
  {
    GetAfterSave(rows, newId, Value(Processing), None, None, now);
  }

  /** A task saved as completed reports its URL; one saved as failed reports its error. */
  lemma SavedOutcomeIsReported(rows: map<string, Row>, taskId: string, url: string, msg: string, now: nat)
    ensures StatusResponse(Lookup(Upsert(rows, taskId, Value(Completed), Some(url), None, now), taskId))
         == Response(200, map["status" := Some("completed"), "minio_url" := Some(url)])
    ensures StatusResponse(Lookup(Upsert(rows, taskId, Value(Failed), None, Some(msg), now), taskId))
         == Response(200, map["status" := Some("failed"), "error" := Some(msg)])
  {
    GetAfterSave(rows, taskId, Value(Completed), Some(url), None, now);
    GetAfterSave(rows, taskId, Value(Failed), None, Some(msg), now);
  }
}
