/**
 * The Tesseract job (app/tasks/ocr_task.py, `process_ocr`): recognize the file,
 * upload the text, record the outcome, clean up, and retry on failure.
 *
 * `processed` is what `ocr_service.process_file` returned or raised (the
 * OcrService module computes it) and `upload` what `upload_text` returned (the
 * object URL) or raised.
 */
module OcrTask {
  import opened Common
  import opened TaskStore
  import opened Jobs
  import opened Routes

  /** The object name of the result: "<task_id>.txt". */
  function ObjectName(t: string): string
  {
    t + ".txt"
  }

  /** The `except Exception` handler: FAILED with str(e), then retry, or clean up and re-raise. */
  function Failure(path: string, present: bool, retries: nat, e: Exc, prior: seq<Effect>): (Outcome<string>, seq<Effect>)
  {
    var failed := prior + [Wrote(Value(Failed), None, Some(Str(e)))];
    if retries < MaxRetries then (Raised(Retry(Backoff(retries), e)), failed + [RetryRequested(Backoff(retries))])
    else (Raised(e), failed + Removal(path, present))
  }

  /** process_ocr: what the job returns or raises, and its effects in order. */
  function ProcessOcrSpec(t: string, path: string, present: bool, retries: nat,
                          processed: Outcome<string>, upload: Outcome<string>): (Outcome<string>, seq<Effect>)
  {
    match processed
    case Raised(e) => Failure(path, present, retries, e, [])
    case Returned(text) =>
      var uploaded := [Uploaded(ObjectName(t), text)];
      match upload
      case Raised(e) => Failure(path, present, retries, e, uploaded)
      case Returned(url) => (Returned(url), uploaded + [Wrote(Value(Completed), Some(url), None)] + Removal(path, present))
  }

  method ProcessOcr(table: TaskTable, t: string, path: string, present: bool, retries: nat,
                    processed: Outcome<string>, upload: Outcome<string>, now: nat)
    returns (r: Outcome<string>, effects: seq<Effect>)
    modifies table
    ensures (r, effects) == ProcessOcrSpec(t, path, present, retries, processed, upload)
    ensures table.rows == Replay(old(table.rows), t, effects, now)
  {
    ghost var rows0 := table.rows;
    effects := [];
    if processed.Raised? {
      r, effects := HandleFailure(table, t, path, present, retries, processed.exc, now, effects, rows0);
      return;
    }
    var textContent := processed.value;
    var objectName := ObjectName(t);
    effects := Record(table, t, Uploaded(objectName, textContent), now, effects, rows0);
    if upload.Raised? {
      r, effects := HandleFailure(table, t, path, present, retries, upload.exc, now, effects, rows0);
      return;
    }
    var resultUrl := upload.value;
    effects := Record(table, t, Wrote(Value(Completed), Some(resultUrl), None), now, effects, rows0);
    if present {
      effects := Record(table, t, RemovedInput(path), now, effects, rows0);
    }
    assert effects == [Uploaded(objectName, textContent)] + [Wrote(Value(Completed), Some(resultUrl), None)] + Removal(path, present);
    return Returned(resultUrl), effects;
  }

  /** The `except Exception` block, entered with exception e after the effects so far. */
  method HandleFailure(table: TaskTable, t: string, path: string, present: bool, retries: nat, e: Exc, now: nat,
                       effects: seq<Effect>, ghost rows0: map<string, Row>)
    returns (r: Outcome<string>, out: seq<Effect>)
    requires table.rows == Replay(rows0, t, effects, now)
    modifies table
    ensures (r, out) == Failure(path, present, retries, e, effects)
    ensures table.rows == Replay(rows0, t, out, now)
  {
    out := Record(table, t, Wrote(Value(Failed), None, Some(Str(e))), now, effects, rows0);
    if retries < MaxRetries {
      var countdown := Backoff(retries);
      out := Record(table, t, RetryRequested(countdown), now, out, rows0);
      return Raised(Retry(countdown, e)), out;
    }
    if present {
      out := Record(table, t, RemovedInput(path), now, out, rows0);
    }
    assert out == effects + [Wrote(Value(Failed), None, Some(Str(e)))] + Removal(path, present);
    return Raised(e), out;
  }

  /**
   * On success the text goes to "<task_id>.txt", the URL is returned, polling
   * the task then shows completed with that URL, and the input is removed.
   */
  lemma OcrSuccess(rows: map<string, Row>, t: string, path: string, present: bool, retries: nat, text: string, url: string, now: nat)
    ensures ProcessOcrSpec(t, path, present, retries, Returned(text), Returned(url)).0 == Returned(url)
    ensures Uploaded(t + ".txt", text) in ProcessOcrSpec(t, path, present, retries, Returned(text), Returned(url)).1
    ensures RemovedInput(path) in ProcessOcrSpec(t, path, present, retries, Returned(text), Returned(url)).1 <==> present
    ensures StatusResponse(Lookup(Replay(rows, t, ProcessOcrSpec(t, path, present, retries, Returned(text), Returned(url)).1, now), t))
         == Response(200, map["status" := Some("completed"), "minio_url" := Some(url)])
  {
    var uploaded := [Uploaded(t + ".txt", text)];
    var completed := Wrote("completed", Some(url), None);
    assert ProcessOcrSpec(t, path, present, retries, Returned(text), Returned(url)).1 == uploaded + [completed] + Removal(path, present);
    PollCompleted(rows, t, ProcessOcrSpec(t, path, present, retries, Returned(text), Returned(url)).1, uploaded, Some(url), Removal(path, present), now);
  }

  /** The exception that reached the handler: the processing error, else the upload error. */
  predicate FailsWith(processed: Outcome<string>, upload: Outcome<string>, e: Exc)
  {
    processed == Raised(e) || (processed.Returned? && upload == Raised(e))
  }

  /** The effects before the handler: the upload, when recognition returned. */
  function Prior(t: string, processed: Outcome<string>): seq<Effect>
  {
    if processed.Raised? then [] else [Uploaded(ObjectName(t), processed.value)]
  }

  /** A failure of recognition or upload hands the handler its exception after the effects so far. */
  lemma FailureReached(t: string, path: string, present: bool, retries: nat,
                       processed: Outcome<string>, upload: Outcome<string>, e: Exc)
    requires FailsWith(processed, upload, e)
    ensures ProcessOcrSpec(t, path, present, retries, processed, upload) == Failure(path, present, retries, e, Prior(t, processed))
  {
  }

  /**
   * With retries left, a failure is recorded as FAILED with str(e), then a
   * retry is requested with countdown 60*(retries+1) (60, 120, 180) and the job
   * raises Retry; the input is kept for the next delivery.
   */
  lemma OcrFailureRetries(t: string, path: string, present: bool, retries: nat,
                          processed: Outcome<string>, upload: Outcome<string>, e: Exc)
    requires FailsWith(processed, upload, e) && retries < MaxRetries
    ensures ProcessOcrSpec(t, path, present, retries, processed, upload).0 == Raised(Retry(60 * (retries + 1), e))
    ensures var effects := ProcessOcrSpec(t, path, present, retries, processed, upload).1;
      |effects| >= 2 && effects[|effects| - 2..] == [Wrote("failed", None, Some(Str(e))), RetryRequested(60 * (retries + 1))]
      && RemovedInput(path) !in effects
  {
    var prior := Prior(t, processed);
    var failed := Wrote("failed", None, Some(Str(e)));
    var retry := RetryRequested(Backoff(retries));
    var effects := prior + [failed] + [retry];
    FailureReached(t, path, present, retries, processed, upload, e);
    assert ProcessOcrSpec(t, path, present, retries, processed, upload) == (Raised(Retry(Backoff(retries), e)), effects);
    assert effects[|effects| - 2..] == [failed, retry] by {
      assert effects == prior + [failed, retry];
    }
    assert forall j :: 0 <= j < |effects| ==> !effects[j].RemovedInput?;
  }

  /** Once retries are exhausted, a failure is recorded, the input is removed if present, and e itself is re-raised. */
  lemma OcrFailureExhausted(t: string, path: string, present: bool, retries: nat,
                            processed: Outcome<string>, upload: Outcome<string>, e: Exc)
    requires FailsWith(processed, upload, e) && retries >= MaxRetries
    ensures ProcessOcrSpec(t, path, present, retries, processed, upload).0 == Raised(e)
    ensures var effects := ProcessOcrSpec(t, path, present, retries, processed, upload).1;
      (RemovedInput(path) in effects <==> present) && forall j :: 0 <= j < |effects| ==> !effects[j].RetryRequested?
  {
    var prior := Prior(t, processed);
    var failed := Wrote("failed", None, Some(Str(e)));
    var effects := prior + [failed] + Removal(path, present);
    FailureReached(t, path, present, retries, processed, upload, e);
    assert ProcessOcrSpec(t, path, present, retries, processed, upload) == (Raised(e), effects);
    assert RemovedInput(path) !in prior + [failed];
  }

  /** Whether or not a retry follows, polling after a failed run reports failed with str(e). */
  lemma OcrFailurePoll(rows: map<string, Row>, t: string, path: string, present: bool, retries: nat,
                       processed: Outcome<string>, upload: Outcome<string>, e: Exc, now: nat)
    requires FailsWith(processed, upload, e)
    ensures StatusResponse(Lookup(Replay(rows, t, ProcessOcrSpec(t, path, present, retries, processed, upload).1, now), t))
         == Response(200, map["status" := Some("failed"), "error" := Some(Str(e))])
  {
    var effects := ProcessOcrSpec(t, path, present, retries, processed, upload).1;
    FailureReached(t, path, present, retries, processed, upload, e);
    if retries < MaxRetries {
      PollFailed(rows, t, effects, Prior(t, processed), Some(Str(e)), [RetryRequested(Backoff(retries))], now);
    } else {
      PollFailed(rows, t, effects, Prior(t, processed), Some(Str(e)), Removal(path, present), now);
    }
  }
}
