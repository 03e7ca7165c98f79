/**
 * What the three Celery job executors under app/tasks/ have in common: the
 * effects they produce, in order, and how their status writes land in the task
 * table.
 *
 * An executor runs once, for the delivery numbered `retries` (Celery's
 * `self.request.retries`). `self.retry(exc=e, countdown=c)` re-sends the job
 * and raises `Retry(c, e)`; it never returns. A removal is recorded only when
 * `os.path.exists` holds, and the services never delete the input file, so the
 * file's existence at the start decides every removal.
 */
module Jobs {
  import opened Common
  import opened TaskStore
  import opened Routes

  /** `max_retries=3` on every job. */
  const MaxRetries: nat := 3

  /** The countdown `60 * (self.request.retries + 1)`. */
  function Backoff(retries: nat): nat
  {
    60 * (retries + 1)
  }

  /** The message of the missing-input check that the LLM and Ollama jobs start with. */
  function MissingInput(path: string): string
  {
    "输入文件不存在: " + path
  }

  /** One observable step of a job run. */
  datatype Effect =
    | Wrote(status: string, resultUrl: Option<string>, error: Option<string>)  // save_task_status
    | Uploaded(objectName: string, content: string)                            // a call of minio_service.upload_text, whether or not it then raised
    | RetryRequested(countdown: nat)                                           // self.retry re-sends the job
    | RemovedInput(path: string)                                               // os.remove of the input file

  /** `if os.path.exists(path): os.remove(path)`. */
  function Removal(path: string, present: bool): (r: seq<Effect>)
    ensures RemovedInput(path) in r <==> present
  {
    if present then [RemovedInput(path)] else []
  }

  /** The table after a run's effects for task t: every write, in order. */
  function Replay(rows: map<string, Row>, t: string, effects: seq<Effect>, now: nat): map<string, Row>
    decreases |effects|
  {
    if effects == [] then rows
    else
      var prev := Replay(rows, t, effects[..|effects| - 1], now);
      var e := effects[|effects| - 1];
      if e.Wrote? then Upsert(prev, t, e.status, e.resultUrl, e.error, now) else prev
  }

  /** Performs one effect on the table (only writes touch it) and logs it. */
  method Record(table: TaskTable, t: string, e: Effect, now: nat, effects: seq<Effect>, ghost rows0: map<string, Row>)
    returns (out: seq<Effect>)
    requires table.rows == Replay(rows0, t, effects, now)
    modifies table
    ensures out == effects + [e]
    ensures table.rows == Replay(rows0, t, out, now)
  {
    if e.Wrote? {
      table.SaveTaskStatus(t, e.status, e.resultUrl, e.error, now);
    }
    out := effects + [e];
    assert out[..|out| - 1] == effects;
  }

  /** A run without status writes leaves the table as it was. */
  lemma {:induction false} ReplayWithoutWrites(rows: map<string, Row>, t: string, effects: seq<Effect>, now: nat)
    requires forall j :: 0 <= j < |effects| ==> !effects[j].Wrote?
    ensures Replay(rows, t, effects, now) == rows
    decreases |effects|
  {
    if effects != [] {
      ReplayWithoutWrites(rows, t, effects[..|effects| - 1], now);
    }
  }

  /** What `get_task_status(t)` reads after a run is its last write. */
  lemma {:induction false} ReplayLastWrite(rows: map<string, Row>, t: string, effects: seq<Effect>, now: nat, i: nat)
    requires i < |effects| && effects[i].Wrote?
    requires forall j :: i < j < |effects| ==> !effects[j].Wrote?
    ensures Lookup(Replay(rows, t, effects, now), t).Some?
    ensures Lookup(Replay(rows, t, effects, now), t).value.status == effects[i].status
    ensures Lookup(Replay(rows, t, effects, now), t).value.resultUrl == effects[i].resultUrl
    ensures Lookup(Replay(rows, t, effects, now), t).value.error == effects[i].error
    decreases |effects|
  {
    if i < |effects| - 1 {
      ReplayLastWrite(rows, t, effects[..|effects| - 1], now, i);
    }
  }

  /** Polling after a run whose last write is completed with `url` reports completed and that URL. */
  lemma PollCompleted(rows: map<string, Row>, t: string, effects: seq<Effect>, before: seq<Effect>, url: Option<string>, after: seq<Effect>, now: nat)
    requires effects == before + [Wrote("completed", url, None)] + after
    requires forall j :: 0 <= j < |after| ==> !after[j].Wrote?
    ensures StatusResponse(Lookup(Replay(rows, t, effects, now), t)) == Response(200, map["status" := Some("completed"), "minio_url" := url])
  {
    assert effects[|before|] == Wrote("completed", url, None);
    ReplayLastWrite(rows, t, effects, now, |before|);
  }

  /** Polling after a run whose last write is failed with `error` reports failed and that error. */
  lemma PollFailed(rows: map<string, Row>, t: string, effects: seq<Effect>, before: seq<Effect>, error: Option<string>, after: seq<Effect>, now: nat)
    requires effects == before + [Wrote("failed", None, error)] + after
    requires forall j :: 0 <= j < |after| ==> !after[j].Wrote?
    ensures StatusResponse(Lookup(Replay(rows, t, effects, now), t)) == Response(200, map["status" := Some("failed"), "error" := error])
  {
    assert effects[|before|] == Wrote("failed", None, error);
    ReplayLastWrite(rows, t, effects, now, |before|);
  }
}
