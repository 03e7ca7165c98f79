/**
 * The multimodal-model job (app/tasks/llm_task.py, `process_llm`): check the
 * input, recognize it, upload the text, record the outcome, and retry.
 *
 * Its handlers nest: the handlers around recognition and upload call
 * `self.retry`, whose `Retry` escapes to the outer `except Exception`, which
 * records FAILED and calls `self.retry` a second time. Its cancellation
 * handler looks up `TaskStatus.CANCELLED`, which raises AttributeError before
 * anything is written or removed.
 *
 * `processed` is what `llm_service.process_file` returned (its text) or raised
 * (the LlmService module computes it) and `upload` what `upload_text` returned
 * (the object URL) or raised.
 */
module LlmTask {
  import opened Common
  import opened TaskStore
  import opened Jobs
  import opened Routes

  /** The object name of the result: "llm_<task_id>.txt". */
  function ObjectName(t: string): string
  {
    "llm_" + t + ".txt"
  }


  /** The outer handlers, for exception e escaping the body after the effects `prior`. */
  function Outer(path: string, present: bool, retries: nat, e: Exc, prior: seq<Effect>): (Outcome<string>, seq<Effect>)
  {
    if e.TaskCancelled? && e.origin == LlmCancel then
      // save_task_status(task_id, TaskStatus.CANCELLED.value, ...) fails at the attribute lookup
      (Raised(CancelledLookupError), prior)
    else
      var failed := prior + [Wrote(Value(Failed), None, Some(Str(e)))];
      if retries < MaxRetries then (Raised(Retry(Backoff(retries), e)), failed + [RetryRequested(Backoff(retries))])
      else (Raised(e), failed + Removal(path, present))
  }

  /** The inner handlers around recognition and upload: retry while retries remain (the Retry escapes), otherwise re-raise e. */
  function Inner(path: string, present: bool, retries: nat, e: Exc, prior: seq<Effect>): (Outcome<string>, seq<Effect>)
  {
    if retries < MaxRetries then Outer(path, present, retries, Retry(Backoff(retries), e), prior + [RetryRequested(Backoff(retries))])
    else Outer(path, present, retries, e, prior)
  }

  /** process_llm: what the job returns or raises, and its effects in order. */
  function ProcessLlmSpec(t: string, path: string, present: bool, retries: nat,
                          processed: Outcome<string>, upload: Outcome<string>): (Outcome<string>, seq<Effect>)
  {
    if !present then
      Outer(path, present, retries, FileNotFound(MissingInput(path)), [Wrote(Value(Failed), None, Some(MissingInput(path)))])
    else match processed
      case Raised(e) => Inner(path, present, retries, e, [])
      case Returned(text) =>
        var uploaded := [Uploaded(ObjectName(t), text)];
        match upload
        case Raised(e) => Inner(path, present, retries, e, uploaded)
        case Returned(url) => (Returned(url), uploaded + [Wrote(Value(Completed), Some(url), None)] + Removal(path, present))
  }

  method ProcessLlm(table: TaskTable, t: string, path: string, present: bool, retries: nat,
                    processed: Outcome<string>, upload: Outcome<string>, now: nat)
    returns (r: Outcome<string>, effects: seq<Effect>)
    modifies table
    ensures (r, effects) == ProcessLlmSpec(t, path, present, retries, processed, upload)
    ensures table.rows == Replay(old(table.rows), t, effects, now)
  {
    ghost var rows0 := table.rows;
    effects := [];
    if !present {
      var errorMsg := MissingInput(path);
      effects := Record(table, t, Wrote(Value(Failed), None, Some(errorMsg)), now, effects, rows0);
      r, effects := HandleOuter(table, t, path, present, retries, FileNotFound(errorMsg), now, effects, rows0);
      return;
    }
    if processed.Raised? {
      r, effects := HandleInner(table, t, path, present, retries, processed.exc, now, effects, rows0);
      return;
    }
    var textContent := processed.value;
    var objectName := ObjectName(t);
    effects := Record(table, t, Uploaded(objectName, textContent), now, effects, rows0);
    if upload.Raised? {
      r, effects := HandleInner(table, t, path, present, retries, upload.exc, now, effects, rows0);
      return;
    }
    var resultUrl := upload.value;
    effects := Record(table, t, Wrote(Value(Completed), Some(resultUrl), None), now, effects, rows0);
    if present {
      effects := Record(table, t, RemovedInput(path), now, effects, rows0);
    }
    assert effects == [Uploaded(objectName, textContent)] + [Wrote(Value(Completed), Some(resultUrl), None)] + Removal(path, present);
    return Returned(resultUrl), effects;
  }

  /** The handlers around recognition and upload, entered with exception e after the effects so far. */
  method HandleInner(table: TaskTable, t: string, path: string, present: bool, retries: nat, e: Exc, now: nat,
                     effects: seq<Effect>, ghost rows0: map<string, Row>)
    returns (r: Outcome<string>, out: seq<Effect>)
    requires table.rows == Replay(rows0, t, effects, now)
    modifies table
    ensures (r, out) == Inner(path, present, retries, e, effects)
    ensures table.rows == Replay(rows0, t, out, now)
  {
    if retries < MaxRetries {
      var countdown := Backoff(retries);
      out := Record(table, t, RetryRequested(countdown), now, effects, rows0);
      r, out := HandleOuter(table, t, path, present, retries, Retry(countdown, e), now, out, rows0);
    } else {
      r, out := HandleOuter(table, t, path, present, retries, e, now, effects, rows0);
    }
  }

  /** The outer `except` blocks, entered with exception e after the effects so far. */
  method HandleOuter(table: TaskTable, t: string, path: string, present: bool, retries: nat, e: Exc, now: nat,
                     effects: seq<Effect>, ghost rows0: map<string, Row>)
    returns (r: Outcome<string>, out: seq<Effect>)
    requires table.rows == Replay(rows0, t, effects, now)
    modifies table
    ensures (r, out) == Outer(path, present, retries, e, effects)
    ensures table.rows == Replay(rows0, t, out, now)
  {
    if e.TaskCancelled? && e.origin == LlmCancel {
      return Raised(CancelledLookupError), effects;
    }
    out := Record(table, t, Wrote(Value(Failed), None, Some(Str(e))), now, effects, rows0);
    if retries < MaxRetries {
      var countdown := Backoff(retries);
      out := Record(table, t, RetryRequested(countdown), now, out, rows0);
      return Raised(Retry(countdown, e)), out;
    }
    if present {
      out := Record(table, t, RemovedInput(path), now, out, rows0);
    }
    assert out == effects + [Wrote(Value(Failed), None, Some(Str(e)))] + Removal(path, present);
    return Raised(e), out;
  }

  /**
   * A missing input is recorded as FAILED twice with the same message (the
   * check, then the outer handler) and, while retries remain, still retried.
   */
  lemma LlmMissingInput(rows: map<string, Row>, t: string, path: string, retries: nat,
                        processed: Outcome<string>, upload: Outcome<string>, now: nat)
    ensures var (r, effects) := ProcessLlmSpec(t, path, false, retries, processed, upload);
      |effects| >= 2 && effects[0] == effects[1] == Wrote("failed", None, Some("输入文件不存在: " + path))
      && (retries < MaxRetries ==> r == Raised(Retry(60 * (retries + 1), FileNotFound("输入文件不存在: " + path))))
      && (retries >= MaxRetries ==> r == Raised(FileNotFound("输入文件不存在: " + path)))
      && forall j :: 0 <= j < |effects| ==> !effects[j].Uploaded? && !effects[j].RemovedInput?
    ensures StatusResponse(Lookup(Replay(rows, t, ProcessLlmSpec(t, path, false, retries, processed, upload).1, now), t))
         == Response(200, map["status" := Some("failed"), "error" := Some("输入文件不存在: " + path)])
  {
    var failed := Wrote("failed", None, Some(MissingInput(path)));
    var rest := if retries < MaxRetries then [RetryRequested(Backoff(retries))] else [];
    assert ProcessLlmSpec(t, path, false, retries, processed, upload).1 == [failed] + [failed] + rest;
    PollFailed(rows, t, ProcessLlmSpec(t, path, false, retries, processed, upload).1, [failed], Some(MissingInput(path)), rest, now);
  }

  /** On success the text goes to "llm_<task_id>.txt", polling shows completed with the URL, and the input is removed. */
  lemma LlmSuccess(rows: map<string, Row>, t: string, path: string, retries: nat, text: string, url: string, now: nat)
    ensures ProcessLlmSpec(t, path, true, retries, Returned(text), Returned(url))
         == (Returned(url), [Uploaded("llm_" + t + ".txt", text), Wrote("completed", Some(url), None), RemovedInput(path)])
    ensures StatusResponse(Lookup(Replay(rows, t, ProcessLlmSpec(t, path, true, retries, Returned(text), Returned(url)).1, now), t))
         == Response(200, map["status" := Some("completed"), "minio_url" := Some(url)])
  {
    var uploaded := [Uploaded("llm_" + t + ".txt", text)];
    var completed := Wrote("completed", Some(url), None);
    var effects := uploaded + [completed] + [RemovedInput(path)];
    assert ProcessLlmSpec(t, path, true, retries, Returned(text), Returned(url)) == (Returned(url), effects);
    assert effects == [Uploaded("llm_" + t + ".txt", text), completed, RemovedInput(path)];
    PollCompleted(rows, t, ProcessLlmSpec(t, path, true, retries, Returned(text), Returned(url)).1, uploaded, Some(url), [RemovedInput(path)], now);
  }

  /**
   * With retries left, a recognition failure (a cancellation included) asks for
   * two re-deliveries: the inner handler's, and the outer handler's after it
   * records FAILED with the text of the first Retry. The input is kept.
   */
  lemma LlmFailureRetriesTwice(rows: map<string, Row>, t: string, path: string, retries: nat, e: Exc, upload: Outcome<string>, now: nat)
    requires retries < MaxRetries
    ensures var c := 60 * (retries + 1);
      ProcessLlmSpec(t, path, true, retries, Raised(e), upload)
      == (Raised(Retry(c, Retry(c, e))), [RetryRequested(c), Wrote("failed", None, Some(Str(Retry(c, e)))), RetryRequested(c)])
    ensures StatusResponse(Lookup(Replay(rows, t, ProcessLlmSpec(t, path, true, retries, Raised(e), upload).1, now), t))
         == Response(200, map["status" := Some("failed"), "error" := Some("Retry in " + NatToString(60 * (retries + 1)) + "s: " + Repr(e))])
  {
    var c := Backoff(retries);
    assert c == 60 * (retries + 1);
    var failed := Wrote("failed", None, Some(Str(Retry(c, e))));
    var effects := [RetryRequested(c)] + [failed] + [RetryRequested(c)];
    assert ProcessLlmSpec(t, path, true, retries, Raised(e), upload) == (Raised(Retry(c, Retry(c, e))), effects) by {
      assert effects == [] + [RetryRequested(c)] + [failed] + [RetryRequested(c)];
    }
    assert effects == [RetryRequested(c), failed, RetryRequested(c)];
    PollFailed(rows, t, ProcessLlmSpec(t, path, true, retries, Raised(e), upload).1, [RetryRequested(c)], Some(Str(Retry(c, e))), [RetryRequested(c)], now);
  }

  /**
   * After the last retry a cancellation reaches the cancellation handler, which
   * raises AttributeError at `TaskStatus.CANCELLED`: nothing is recorded, the
   * input is not removed, and the status stays as it was.
   */
  lemma LlmCancelAfterLastRetry(rows: map<string, Row>, t: string, path: string, retries: nat, msg: string, upload: Outcome<string>, now: nat)
    requires retries >= MaxRetries
    ensures ProcessLlmSpec(t, path, true, retries, Raised(TaskCancelled(LlmCancel, msg)), upload) == (Raised(CancelledLookupError), [])
    ensures Lookup(Replay(rows, t, ProcessLlmSpec(t, path, true, retries, Raised(TaskCancelled(LlmCancel, msg)), upload).1, now), t)
         == Lookup(rows, t)
  {
  }

  /** After the last retry any other failure is recorded as FAILED with str(e), the input removed, and e re-raised. */
  lemma LlmFailureAfterLastRetry(t: string, path: string, retries: nat, e: Exc, upload: Outcome<string>)
    requires retries >= MaxRetries && !(e.TaskCancelled? && e.origin == LlmCancel)
    ensures ProcessLlmSpec(t, path, true, retries, Raised(e), upload) == (Raised(e), [Wrote("failed", None, Some(Str(e))), RemovedInput(path)])
  {
    assert [] + [Wrote("failed", None, Some(Str(e)))] + Removal(path, true) == [Wrote("failed", None, Some(Str(e))), RemovedInput(path)];
  }

  /** Every re-delivery the job asks for uses the countdown 60*(retries+1), and only while retries < 3. */
  lemma LlmRetriesWithinLimit(t: string, path: string, present: bool, retries: nat,
                              processed: Outcome<string>, upload: Outcome<string>, j: nat)
    requires j < |ProcessLlmSpec(t, path, present, retries, processed, upload).1|
    requires ProcessLlmSpec(t, path, present, retries, processed, upload).1[j].RetryRequested?
    ensures retries < MaxRetries
    ensures ProcessLlmSpec(t, path, present, retries, processed, upload).1[j] == RetryRequested(60 * (retries + 1))
  {
  }
}
