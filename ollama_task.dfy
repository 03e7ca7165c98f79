/**
 * The Ollama job (app/tasks/ollama_ocr_task.py, `process_ollama_ocr`): check
 * the input, recognize it, upload the text, record the outcome, and always
 * remove the input in `finally`.
 *
 * The job never raises: its outer handlers turn every escaping exception (the
 * `Retry` raised by `self.retry`, and the AttributeError raised at
 * `TaskStatus.CANCELLED`) into a FAILED write and a returned `failed` dict.
 * The returned dict is a map from its keys to strings.
 *
 * `processed` is what `ollama_ocr_service.process_file` returned or raised (the
 * OllamaService module computes it) and `upload` what `upload_text` returned
 * (the object URL) or raised.
 */
module OllamaTask {
  import opened Common
  import opened TaskStore
  import opened Jobs
  import opened Routes

  /** The object name of the result: "<task_id>.txt". */
  function ObjectName(t: string): string
  {
    t + ".txt"
  }

  /** The fixed countdown of this job's retry. */
  const RetryCountdown: nat := 60

  function CompletedResult(t: string, url: string): map<string, string>
  {
    map["task_id" := t, "status" := "completed", "minio_url" := url]
  }

  function FailedResult(t: string, msg: string): map<string, string>
  {
    map["task_id" := t, "status" := "failed", "error" := msg]
  }

  /** The outer `except Exception` handler: FAILED with "Ollama OCR任务异常: ..." and a failed dict. */
  function Unexpected(t: string, e: Exc, prior: seq<Effect>): (map<string, string>, seq<Effect>)
  {
    var msg := "Ollama OCR任务异常: " + Str(e);
    (FailedResult(t, msg), prior + [Wrote(Value(Failed), None, Some(msg))])
  }

  /** The inner handlers, for exception e from recognition or upload after the effects `prior`. */
  function ProcessingFailed(t: string, retries: nat, e: Exc, prior: seq<Effect>): (map<string, string>, seq<Effect>)
  {
    if e.TaskCancelled? && e.origin == OllamaCancel then
      // TaskStatus.CANCELLED raises before anything is written
      Unexpected(t, CancelledLookupError, prior)
    else if retries < MaxRetries then
      Unexpected(t, Retry(RetryCountdown, e), prior + [RetryRequested(RetryCountdown)])
    else
      var msg := "Ollama OCR处理失败: " + Str(e);
      (FailedResult(t, msg), prior + [Wrote(Value(Failed), None, Some(msg))])
  }

  /** The inner `try` (recognize, upload, record) with its handlers: the returned dict and the effects in order. */
  function Attempt(t: string, retries: nat, processed: Outcome<string>, upload: Outcome<string>): (map<string, string>, seq<Effect>)
  {
    match processed
    case Raised(e) => ProcessingFailed(t, retries, e, [])
    case Returned(text) =>
      var uploaded := [Uploaded(ObjectName(t), text)];
      match upload
      case Raised(e) => ProcessingFailed(t, retries, e, uploaded)
      case Returned(url) => (CompletedResult(t, url), uploaded + [Wrote(Value(Completed), Some(url), None)])
  }

  /** process_ollama_ocr: the returned dict and the effects in order. */
  function ProcessOllamaSpec(t: string, path: string, present: bool, retries: nat,
                             processed: Outcome<string>, upload: Outcome<string>): (map<string, string>, seq<Effect>)
  {
    if !present then
      // the check writes FAILED and raises FileNotFoundError, whose handler writes FAILED again
      var msg := MissingInput(path);
      (FailedResult(t, msg), [Wrote(Value(Failed), None, Some(msg)), Wrote(Value(Failed), None, Some(msg))])
    else
      var attempt := Attempt(t, retries, processed, upload);
      (attempt.0, attempt.1 + [RemovedInput(path)])
  }

  method ProcessOllamaOcr(table: TaskTable, t: string, path: string, present: bool, retries: nat,
                          processed: Outcome<string>, upload: Outcome<string>, now: nat)
    returns (r: map<string, string>, effects: seq<Effect>)
    modifies table
    ensures (r, effects) == ProcessOllamaSpec(t, path, present, retries, processed, upload)
    ensures table.rows == Replay(old(table.rows), t, effects, now)
  {
    ghost var rows0 := table.rows;
    effects := [];
    if !present {
      var errorMsg := MissingInput(path);
      effects := Record(table, t, Wrote(Value(Failed), None, Some(errorMsg)), now, effects, rows0);
      // except FileNotFoundError
      effects := Record(table, t, Wrote(Value(Failed), None, Some(errorMsg)), now, effects, rows0);
      r := FailedResult(t, errorMsg);
      // finally: there is no file to remove
      assert effects == [Wrote(Value(Failed), None, Some(errorMsg)), Wrote(Value(Failed), None, Some(errorMsg))];
      return;
    }
    if processed.Raised? {
      r, effects := HandleProcessingFailure(table, t, retries, processed.exc, now, effects, rows0);
    } else {
      var textContent := processed.value;
      var textFilename := ObjectName(t);
      effects := Record(table, t, Uploaded(textFilename, textContent), now, effects, rows0);
      if upload.Raised? {
        r, effects := HandleProcessingFailure(table, t, retries, upload.exc, now, effects, rows0);
      } else {
        var minioUrl := upload.value;
        effects := Record(table, t, Wrote(Value(Completed), Some(minioUrl), None), now, effects, rows0);
        r := CompletedResult(t, minioUrl);
      }
    }
    assert (r, effects) == Attempt(t, retries, processed, upload);
    // finally
    effects := Record(table, t, RemovedInput(path), now, effects, rows0);
  }

  /**
   * The inner `except` blocks, entered with exception e after the effects so
   * far, together with the outer `except Exception` that catches what they raise.
   */
  method HandleProcessingFailure(table: TaskTable, t: string, retries: nat, e: Exc, now: nat,
                                 effects: seq<Effect>, ghost rows0: map<string, Row>)
    returns (r: map<string, string>, out: seq<Effect>)
    requires table.rows == Replay(rows0, t, effects, now)
    modifies table
    ensures (r, out) == ProcessingFailed(t, retries, e, effects)
    ensures table.rows == Replay(rows0, t, out, now)
  {
    out := effects;
    var escaped: Exc;
    if e.TaskCancelled? && e.origin == OllamaCancel {
      escaped := CancelledLookupError;
    } else if retries < MaxRetries {
      out := Record(table, t, RetryRequested(RetryCountdown), now, out, rows0);
      escaped := Retry(RetryCountdown, e);
    } else {
      var errorMsg := "Ollama OCR处理失败: " + Str(e);
      out := Record(table, t, Wrote(Value(Failed), None, Some(errorMsg)), now, out, rows0);
      return FailedResult(t, errorMsg), out;
    }
    var errorMsg := "Ollama OCR任务异常: " + Str(escaped);
    out := Record(table, t, Wrote(Value(Failed), None, Some(errorMsg)), now, out, rows0);
    r := FailedResult(t, errorMsg);
  }

  /** The job always returns a dict for its task, whose status is "completed" or "failed", never "cancelled". */
  lemma OllamaResultShape(t: string, path: string, present: bool, retries: nat, processed: Outcome<string>, upload: Outcome<string>)
    ensures var r := ProcessOllamaSpec(t, path, present, retries, processed, upload).0;
      "task_id" in r && r["task_id"] == t && "status" in r && (r["status"] == "completed" || r["status"] == "failed")
      && (r["status"] == "completed" <==> present && processed.Returned? && upload.Returned?)
  {
    assert "failed" != "completed";
  }

  /** `finally` removes the input on every path where it exists, and only then, as the last effect. */
  lemma OllamaAlwaysCleansUp(t: string, path: string, present: bool, retries: nat, processed: Outcome<string>, upload: Outcome<string>)
    ensures var effects := ProcessOllamaSpec(t, path, present, retries, processed, upload).1;
      (RemovedInput(path) in effects <==> present) && (present ==> effects[|effects| - 1] == RemovedInput(path))
  {
    var effects := ProcessOllamaSpec(t, path, present, retries, processed, upload).1;
    if !present {
      assert effects[0].Wrote? && effects[1].Wrote?;
    }
  }

  /** A missing input writes FAILED twice with the same message and returns it in a failed dict, with no retry. */
  lemma OllamaMissingInput(t: string, path: string, retries: nat, processed: Outcome<string>, upload: Outcome<string>)
    ensures ProcessOllamaSpec(t, path, false, retries, processed, upload)
         == (FailedResult(t, "输入文件不存在: " + path),
             [Wrote("failed", None, Some("输入文件不存在: " + path)), Wrote("failed", None, Some("输入文件不存在: " + path))])
  {
  }

  /** On success the text goes to "<task_id>.txt", a completed dict carries the URL, and polling shows it. */
  lemma OllamaSuccess(rows: map<string, Row>, t: string, path: string, retries: nat, text: string, url: string, now: nat)
    ensures ProcessOllamaSpec(t, path, true, retries, Returned(text), Returned(url))
         == (map["task_id" := t, "status" := "completed", "minio_url" := url],
             [Uploaded(t + ".txt", text), Wrote("completed", Some(url), None), RemovedInput(path)])
    ensures StatusResponse(Lookup(Replay(rows, t, ProcessOllamaSpec(t, path, true, retries, Returned(text), Returned(url)).1, now), t))
         == Response(200, map["status" := Some("completed"), "minio_url" := Some(url)])
  {
    var uploaded := [Uploaded(t + ".txt", text)];
    var completed := Wrote("completed", Some(url), None);
    var effects := uploaded + [completed] + [RemovedInput(path)];
    assert ProcessOllamaSpec(t, path, true, retries, Returned(text), Returned(url)) == (CompletedResult(t, url), effects);
    assert effects == [Uploaded(t + ".txt", text), completed, RemovedInput(path)];
    PollCompleted(rows, t, ProcessOllamaSpec(t, path, true, retries, Returned(text), Returned(url)).1, uploaded, Some(url), [RemovedInput(path)], now);
  }

  /**
   * With retries left, a recognition failure requests a retry in 60 s, yet the
   * Retry it raises is caught: the task is recorded FAILED with the Retry's
   * text, a failed dict is returned, and the input is removed.
   */
  lemma OllamaRetryThenFails(t: string, path: string, retries: nat, e: Exc, upload: Outcome<string>)
    requires retries < MaxRetries && !(e.TaskCancelled? && e.origin == OllamaCancel)
    ensures var msg := "Ollama OCR任务异常: " + Str(Retry(60, e));
      ProcessOllamaSpec(t, path, true, retries, Raised(e), upload)
      == (FailedResult(t, msg), [RetryRequested(60), Wrote("failed", None, Some(msg)), RemovedInput(path)])
  {
    var msg := "Ollama OCR任务异常: " + Str(Retry(60, e));
    var failed := Wrote("failed", None, Some(msg));
    assert ProcessingFailed(t, retries, e, []) == (FailedResult(t, msg), [RetryRequested(60), failed]) by {
      assert [] + [RetryRequested(60)] + [failed] == [RetryRequested(60), failed];
    }
    assert [RetryRequested(60), failed] + [RemovedInput(path)] == [RetryRequested(60), failed, RemovedInput(path)];
  }

  /** Every inner handler ends in a FAILED write whose error is the returned dict's. */
  lemma ProcessingFailedEndsFailed(t: string, retries: nat, e: Exc, prior: seq<Effect>)
    ensures var (r, out) := ProcessingFailed(t, retries, e, prior);
      "error" in r && |out| > 0 && out == out[..|out| - 1] + [Wrote("failed", None, Some(r["error"]))]
  {
    var (r, out) := ProcessingFailed(t, retries, e, prior);
    assert out[..|out| - 1] + [out[|out| - 1]] == out;
  }

  /** After any failed run, polling the task reports failed with the error of the dict the job returned. */
  lemma OllamaFailurePoll(rows: map<string, Row>, t: string, path: string, present: bool, retries: nat,
                          processed: Outcome<string>, upload: Outcome<string>, now: nat)
    requires !(present && processed.Returned? && upload.Returned?)
    ensures var (r, effects) := ProcessOllamaSpec(t, path, present, retries, processed, upload);
      "error" in r
      && StatusResponse(Lookup(Replay(rows, t, effects, now), t)) == Response(200, map["status" := Some("failed"), "error" := Some(r["error"])])
  {
    var (r, effects) := ProcessOllamaSpec(t, path, present, retries, processed, upload);
    if !present {
      var failed := Wrote("failed", None, Some(MissingInput(path)));
      assert effects == [failed] + [failed] + [];
      PollFailed(rows, t, effects, [failed], Some(MissingInput(path)), [], now);
    } else {
      var e := if processed.Raised? then processed.exc else upload.exc;
      var prior := if processed.Raised? then [] else [Uploaded(ObjectName(t), processed.value)];
      var (r1, out) := ProcessingFailed(t, retries, e, prior);
      assert Attempt(t, retries, processed, upload) == (r1, out);
      ProcessingFailedEndsFailed(t, retries, e, prior);
      PollFailed(rows, t, effects, out[..|out| - 1], Some(r["error"]), [RemovedInput(path)], now);
    }
  }

  /** The re-delivery that a retry asks for finds its input already removed, so it only records the missing file. */
  lemma OllamaRetryFindsNoInput(t: string, path: string, retries: nat, e: Exc, upload: Outcome<string>,
                                processed2: Outcome<string>, upload2: Outcome<string>)
    requires retries < MaxRetries && !(e.TaskCancelled? && e.origin == OllamaCancel)
    ensures RetryRequested(60) in ProcessOllamaSpec(t, path, true, retries, Raised(e), upload).1
    ensures RemovedInput(path) in ProcessOllamaSpec(t, path, true, retries, Raised(e), upload).1
    ensures ProcessOllamaSpec(t, path, false, retries + 1, processed2, upload2).0 == FailedResult(t, "输入文件不存在: " + path)
  {
    var effects := ProcessOllamaSpec(t, path, true, retries, Raised(e), upload).1;
    assert effects[0] == RetryRequested(60);
    assert effects[|effects| - 1] == RemovedInput(path);
  }

  /** A cancellation never reaches a CANCELLED status: the lookup fails and the task is recorded FAILED. */
  lemma OllamaCancelRecordedAsFailure(t: string, path: string, retries: nat, msg: string, upload: Outcome<string>)
    ensures var error := "Ollama OCR任务异常: " + "type object 'TaskStatus' has no attribute 'CANCELLED'";
      ProcessOllamaSpec(t, path, true, retries, Raised(TaskCancelled(OllamaCancel, msg)), upload)
      == (FailedResult(t, error), [Wrote("failed", None, Some(error)), RemovedInput(path)])
  {
    var lookup := "type object 'TaskStatus' has no attribute 'CANCELLED'";
    var error := "Ollama OCR任务异常: " + lookup;
    assert Str(CancelledLookupError) == lookup;
    assert [] + [Wrote("failed", None, Some(error))] + [RemovedInput(path)] == [Wrote("failed", None, Some(error)), RemovedInput(path)];
  }

  /** After the last retry a failure is recorded as "Ollama OCR处理失败: " + str(e) and returned. */
  lemma OllamaFailureAfterLastRetry(t: string, path: string, retries: nat, e: Exc, upload: Outcome<string>)
    requires retries >= MaxRetries && !(e.TaskCancelled? && e.origin == OllamaCancel)
    ensures var msg := "Ollama OCR处理失败: " + Str(e);
      ProcessOllamaSpec(t, path, true, retries, Raised(e), upload)
      == (FailedResult(t, msg), [Wrote("failed", None, Some(msg)), RemovedInput(path)])
  {
    var msg := "Ollama OCR处理失败: " + Str(e);
    assert [] + [Wrote("failed", None, Some(msg))] + [RemovedInput(path)] == [Wrote("failed", None, Some(msg)), RemovedInput(path)];
  }
}
