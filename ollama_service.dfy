/**
 * OllamaOCRIntegration (app/services/ollama_ocr_service.py): text recognition
 * through a local Ollama vision model, page by page with per-page failure
 * isolation.
 *
 * The service's `_processing_tasks` dictionary is a Registry.TaskRegistry. What
 * encoding and posting one image does is an `ImageReply` value; the rasterizer
 * is an outcome value. A concurrent cancel_task lands just before query number
 * `cancelAt` of the job's `_is_task_cancelled` queries (see Registry.Checkpoint).
 */
module OllamaService {
  import opened Common
  import opened Registry

  /** File-system steps of the PDF path, in order (removal failures are swallowed). */
  datatype Event = MadeDir(dir: string) | SavedImage(path: string) | Removed(path: string) | RemovedDir(dir: string)

  function Cancelled(t: string): Exc
  {
    TaskCancelled(OllamaCancel, "任务 " + t + " 已取消")
  }

  predicate IsOwnCancel(e: Exc)
  {
    e.TaskCancelled? && e.origin == OllamaCancel
  }

  // ================================================================ process_image

  /**
   * What reading + base64-encoding the image and POSTing it to /api/generate do:
   * reading or posting raises, or an HTTP reply arrives with its status, the
   * "response" field of its JSON body (if present) and its raw text.
   */
  datatype ImageReply =
    | ReadFailed(e: Exc)
    | PostFailed(e: Exc)
    | HttpReply(status: int, response: Option<string>, text: string)

  /** The part of process_image after the cancellation check. */
  function ReplyOutcome(reply: ImageReply): (r: Outcome<string>)
    ensures reply.HttpReply? && reply.status == 200 && reply.response.Some? ==> r == Returned(reply.response.value)
    ensures reply.HttpReply? && reply.status == 200 && reply.response.None? ==> r == Returned("")
    ensures reply.HttpReply? && reply.status != 200 ==>
              r == Raised(Failure("Exception", "Ollama API请求失败: HTTP " + IntToString(reply.status) + ", " + reply.text))
    ensures !reply.HttpReply? ==> r == Raised(reply.e)
  {
    match reply
    case ReadFailed(e) => Raised(e)
    case PostFailed(e) => Raised(e)
    case HttpReply(status, response, text) =>
      if status == 200 then Returned(if response.Some? then response.value else "")
      else Raised(Failure("Exception", "Ollama API请求失败: HTTP " + IntToString(status) + ", " + text))
  }

  /** process_image as query number q of the job. */
  function ProcessImageSpec(t: string, reply: ImageReply, m: map<string, bool>, cancelAt: nat, q: nat): Outcome<string>
  {
    if SeenCancelled(m, t, cancelAt, q) then Raised(Cancelled(t)) else ReplyOutcome(reply)
  }

  method ProcessImage(reg: TaskRegistry, t: string, reply: ImageReply, cancelAt: nat, q: nat, ghost m: map<string, bool>)
    returns (r: Outcome<string>)
    requires reg.tasks == Landed(m, t, cancelAt, q)
    modifies reg
    ensures r == ProcessImageSpec(t, reply, m, cancelAt, q)
    ensures reg.tasks == Landed(m, t, cancelAt, q + 1)
  {
    var cancelled := Checkpoint(reg, t, cancelAt, q, m);
    if cancelled {
      return Raised(Cancelled(t));
    }
    if reply.ReadFailed? || reply.PostFailed? {
      return Raised(reply.e);
    }
    if reply.status == 200 {
      var extractedText := if reply.response.Some? then reply.response.value else "";
      return Returned(extractedText);
    }
    var errorMsg := "Ollama API请求失败: HTTP " + IntToString(reply.status) + ", " + reply.text;
    return Raised(Failure("Exception", errorMsg));
  }

  /** A flagged task raises before the image is read or anything is sent. */
  lemma ImageCancelledBeforeRequest(t: string, e: Exc, m: map<string, bool>, cancelAt: nat, q: nat)
    requires SeenCancelled(m, t, cancelAt, q)
    ensures ProcessImageSpec(t, ReadFailed(e), m, cancelAt, q) == Raised(Cancelled(t))
    ensures forall reply :: ProcessImageSpec(t, reply, m, cancelAt, q) == Raised(Cancelled(t))
  {
  }

  // ================================================================ split_pdf_to_images

  /** `os.path.join('temp', 'ollama_images')`, created by the constructor. */
  const TempImageDir: string := PathJoin("temp", "ollama_images")

  function TaskImageDir(t: string): string
  {
    PathJoin(TempImageDir, t)
  }

  function PagePath(t: string, i: nat): string
  {
    PathJoin(TaskImageDir(t), "page_" + NatToString(i + 1) + ".png")
  }

  /** What `pdf2image.convert_from_path` does: the page count or an exception. */
  datatype Rasterized = RasterFailed(e: Exc) | RasterPages(count: nat)

  /** The save loop after k pages: saving, or stopped by the per-page cancellation check. */
  datatype SplitState = Splitting(paths: seq<string>, events: seq<Event>) | SplitStopped(e: Exc)

  /** Page i is saved after query number 1 + i. */
  function SplitRun(t: string, m: map<string, bool>, cancelAt: nat, k: nat): SplitState
    decreases k
  {
    if k == 0 then Splitting([], [])
    else match SplitRun(t, m, cancelAt, k - 1)
      case SplitStopped(e) => SplitStopped(e)
      case Splitting(ps, ev) =>
        var i := k - 1;
        if SeenCancelled(m, t, cancelAt, 1 + i) then SplitStopped(Cancelled(t))
        else Splitting(ps + [PagePath(t, i)], ev + [SavedImage(PagePath(t, i))])
  }

  function SplitSpec(t: string, raster: Rasterized, m: map<string, bool>, cancelAt: nat): (Outcome<seq<string>>, seq<Event>)
  {
    if SeenCancelled(m, t, cancelAt, 0) then (Raised(Cancelled(t)), [])
    else
      var made := [MadeDir(TaskImageDir(t))];
      match raster
      case RasterFailed(e) => (Raised(e), made)
      case RasterPages(n) =>
        match SplitRun(t, m, cancelAt, n)
        case SplitStopped(e) => (Raised(e), made + SplitRun(t, m, cancelAt, LastSaved(t, m, cancelAt, n)).events)
        case Splitting(paths, ev) => (Returned(paths), made + ev)
  }

  /** How many pages were saved before the loop stopped (n when it did not). */
  function LastSaved(t: string, m: map<string, bool>, cancelAt: nat, n: nat): (k: nat)
    ensures k <= n
    ensures SplitRun(t, m, cancelAt, k).Splitting?
    decreases n
  {
    if n == 0 then 0
    else if SplitRun(t, m, cancelAt, n).Splitting? then n
    else LastSaved(t, m, cancelAt, n - 1)
  }

  method SplitPdfToImages(reg: TaskRegistry, t: string, raster: Rasterized, cancelAt: nat, ghost m: map<string, bool>)
    returns (r: Outcome<seq<string>>, events: seq<Event>)
    requires reg.tasks == m
    modifies reg
    ensures (r, events) == SplitSpec(t, raster, m, cancelAt)
    ensures r.Returned? ==> reg.tasks == Landed(m, t, cancelAt, 1 + |r.value|)
    ensures reg.tasks == m || reg.tasks == CancelRequested(m, t)
  {
    var cancelled := Checkpoint(reg, t, cancelAt, 0, m);
    if cancelled {
      return Raised(Cancelled(t)), [];
    }
    var taskImageDir := PathJoin(TempImageDir, t);
    if raster.RasterFailed? {
      return Raised(raster.e), [MadeDir(taskImageDir)];
    }
    var n := raster.count;
    var imagePaths: seq<string> := [];
    var saved: seq<Event> := [];
    var i := 0;
    while i < n
      invariant 0 <= i <= n && |imagePaths| == i
      invariant SplitRun(t, m, cancelAt, i) == Splitting(imagePaths, saved)
      invariant reg.tasks == Landed(m, t, cancelAt, 1 + i)
    {
      cancelled := Checkpoint(reg, t, cancelAt, 1 + i, m);
      if cancelled {
        SplitStoppedPersists(t, m, cancelAt, i + 1, n);
        LastSavedIsStop(t, m, cancelAt, i, n);
        return Raised(Cancelled(t)), [MadeDir(taskImageDir)] + saved;
      }
      var imagePath := PathJoin(taskImageDir, "page_" + NatToString(i + 1) + ".png");
      imagePaths := imagePaths + [imagePath];
      saved := saved + [SavedImage(imagePath)];
      i := i + 1;
    }
    return Returned(imagePaths), [MadeDir(taskImageDir)] + saved;
  }

  lemma {:induction false} SplitStoppedPersists(t: string, m: map<string, bool>, cancelAt: nat, k: nat, n: nat)
    requires k <= n
    requires SplitRun(t, m, cancelAt, k).SplitStopped?
    ensures SplitRun(t, m, cancelAt, n) == SplitRun(t, m, cancelAt, k)
    decreases n - k
  {
    if k < n {
      SplitStoppedPersists(t, m, cancelAt, k + 1, n);
    }
  }

  /** When the loop stops at page i, the pages saved are exactly those before i. */
  lemma {:induction false} LastSavedIsStop(t: string, m: map<string, bool>, cancelAt: nat, i: nat, n: nat)
    requires i < n
    requires SplitRun(t, m, cancelAt, i).Splitting? && SplitRun(t, m, cancelAt, i + 1).SplitStopped?
    ensures LastSaved(t, m, cancelAt, n) == i
    decreases n
  {
    if n > i + 1 {
      SplitStoppedPersists(t, m, cancelAt, i + 1, n);
      LastSavedIsStop(t, m, cancelAt, i, n - 1);
    }
  }

  /** `temp/ollama_images/<task_id>/page_1.png` .. `page_k.png`. */
  function PagePaths(t: string, k: nat): (r: seq<string>)
    ensures |r| == k
  {
    if k == 0 then [] else PagePaths(t, k - 1) + [PagePath(t, k - 1)]
  }

  lemma {:induction false} PagePathsIndex(t: string, k: nat, i: nat)
    requires i < k
    ensures PagePaths(t, k)[i] == PagePath(t, i)
    decreases k
  {
    if i < k - 1 {
      PagePathsIndex(t, k - 1, i);
    }
  }

  lemma {:induction false} SplitRunQuiet(t: string, m: map<string, bool>, cancelAt: nat, k: nat)
    requires !SeenCancelled(m, t, cancelAt, k)
    ensures SplitRun(t, m, cancelAt, k).Splitting?
    ensures SplitRun(t, m, cancelAt, k).paths == PagePaths(t, k)
    decreases k
  {
    if k > 0 {
      SplitRunQuiet(t, m, cancelAt, k - 1);
    }
  }

  /**
   * Without cancellation the i-th path is `temp/ollama_images/<task_id>/page_{i+1}.png`,
   * one per page, in page order.
   */
  lemma SplitNamesPagesInOrder(t: string, n: nat, m: map<string, bool>, cancelAt: nat)
    requires !SeenCancelled(m, t, cancelAt, n)
    ensures SplitSpec(t, RasterPages(n), m, cancelAt).0 == Returned(PagePaths(t, n))
    ensures forall i :: 0 <= i < n ==> PagePaths(t, n)[i] == PathJoin(TaskImageDir(t), "page_" + NatToString(i + 1) + ".png")
  {
    SplitRunQuiet(t, m, cancelAt, n);
    forall i | 0 <= i < n
      ensures PagePaths(t, n)[i] == PagePath(t, i)
    {
      PagePathsIndex(t, n, i);
    }
  }

  /** A cancellation seen on the first query raises before the directory or the rasterizer. */
  lemma SplitCancelledFirst(t: string, raster: Rasterized, m: map<string, bool>, cancelAt: nat)
    requires SeenCancelled(m, t, cancelAt, 0)
    ensures SplitSpec(t, raster, m, cancelAt) == (Raised(Cancelled(t)), [])
  {
  }

  // ================================================================ process_pdf

  function FailureMessage(i: nat, e: Exc): string
  {
    "处理第" + NatToString(i + 1) + "页图片失败: " + Str(e)
  }

  /** The section page i contributes, given what process_image did for it (not a cancellation). */
  function Section(i: nat, o: Outcome<string>): string
  {
    match o
    case Returned(text) => "--- 第" + NatToString(i + 1) + "页 ---\n" + text + "\n"
    case Raised(e) => "--- 第" + NatToString(i + 1) + "页 (处理失败) ---\n" + FailureMessage(i, e) + "\n"
  }

  /** The page loop after k pages: going with `all_text`, or stopped by a cancellation. */
  datatype LoopState = Looping(sections: seq<string>) | LoopStopped(e: Exc)

  /**
   * One iteration, for page i after the sections s: query number q0 + 2i is
   * the check before the page, q0 + 2i + 1 the one inside process_image.
   */
  function PageStep(reply: nat -> ImageReply, m: map<string, bool>, t: string, cancelAt: nat, q0: nat, i: nat,
                    s: seq<string>): LoopState
  {
    if SeenCancelled(m, t, cancelAt, q0 + 2 * i) then LoopStopped(Cancelled(t))
    else
      var o := ProcessImageSpec(t, reply(i), m, cancelAt, q0 + 2 * i + 1);
      if o.Raised? && IsOwnCancel(o.exc) then LoopStopped(o.exc)
      else Looping(s + [Section(i, o)])
  }

  function LoopRun(reply: nat -> ImageReply, m: map<string, bool>, t: string, cancelAt: nat, q0: nat, k: nat): LoopState
    decreases k
  {
    if k == 0 then Looping([])
    else match LoopRun(reply, m, t, cancelAt, q0, k - 1)
      case LoopStopped(e) => LoopStopped(e)
      case Looping(s) => PageStep(reply, m, t, cancelAt, q0, k - 1, s)
  }

  function Cleanup(paths: seq<string>, t: string): seq<Event>
  {
    seq(|paths|, i requires 0 <= i < |paths| => Removed(paths[i])) + [RemovedDir(TaskImageDir(t))]
  }

  /** process_pdf: the text or exception, and the file-system steps. */
  function ProcessPdfSpec(t: string, raster: Rasterized, reply: nat -> ImageReply, m: map<string, bool>, cancelAt: nat)
    : (Outcome<string>, seq<Event>)
  {
    var (split, ev) := SplitSpec(t, raster, m, cancelAt);
    if split.Raised? then (Raised(split.exc), ev)
    else
      var paths := split.value;
      match LoopRun(reply, m, t, cancelAt, 1 + |paths|, |paths|)
      case LoopStopped(e) => (Raised(e), ev)
      case Looping(s) => (Returned(Join("\n", s)), ev + Cleanup(paths, t))
  }

  method ProcessPdf(reg: TaskRegistry, t: string, raster: Rasterized, reply: nat -> ImageReply, cancelAt: nat,
                    ghost m: map<string, bool>)
    returns (r: Outcome<string>, events: seq<Event>)
    requires reg.tasks == m
    modifies reg
    ensures (r, events) == ProcessPdfSpec(t, raster, reply, m, cancelAt)
    ensures reg.tasks == m || reg.tasks == CancelRequested(m, t)
  {
    var split;
    split, events := SplitPdfToImages(reg, t, raster, cancelAt, m);
    if split.Raised? {
      return Raised(split.exc), events;
    }
    var imagePaths := split.value;
    var allText := ProcessPages(reg, t, imagePaths, reply, cancelAt, 1 + |imagePaths|, m);
    if allText.Raised? {
      return Raised(allText.exc), events;
    }
    var removals := RemoveTemporaries(imagePaths, t);
    return Returned(Join("\n", allText.value)), events + removals;
  }

  /** What the page loop ends with: the sections, or the cancellation that stopped it. */
  function LoopOutcome(st: LoopState): Outcome<seq<string>>
  {
    match st
    case Looping(s) => Returned(s)
    case LoopStopped(e) => Raised(e)
  }

  /** The page loop of process_pdf, from query number q0 on. */
  method ProcessPages(reg: TaskRegistry, t: string, imagePaths: seq<string>, reply: nat -> ImageReply,
                      cancelAt: nat, q0: nat, ghost m: map<string, bool>)
    returns (r: Outcome<seq<string>>)
    requires reg.tasks == Landed(m, t, cancelAt, q0)
    modifies reg
    ensures r == LoopOutcome(LoopRun(reply, m, t, cancelAt, q0, |imagePaths|))
    ensures reg.tasks == m || reg.tasks == CancelRequested(m, t)
  {
    var allText: seq<string> := [];
    var i := 0;
    while i < |imagePaths|
      invariant 0 <= i <= |imagePaths|
      invariant LoopRun(reply, m, t, cancelAt, q0, i) == Looping(allText)
      invariant reg.tasks == Landed(m, t, cancelAt, q0 + 2 * i)
    {
      var st := ProcessPage(reg, t, reply, cancelAt, q0, i, allText, m);
      assert LoopRun(reply, m, t, cancelAt, q0, i + 1) == st;
      if st.LoopStopped? {
        LoopStoppedPersists(reply, m, t, cancelAt, q0, i + 1, |imagePaths|);
        return Raised(st.e);
      }
      allText := st.sections;
      i := i + 1;
    }
    return Returned(allText);
  }

  /** One pass of the page loop's body: the cancellation check, then process_image and the page's section. */
  method ProcessPage(reg: TaskRegistry, t: string, reply: nat -> ImageReply, cancelAt: nat, q0: nat, i: nat,
                     allText: seq<string>, ghost m: map<string, bool>)
    returns (st: LoopState)
    requires reg.tasks == Landed(m, t, cancelAt, q0 + 2 * i)
    modifies reg
    ensures st == PageStep(reply, m, t, cancelAt, q0, i, allText)
    ensures st.Looping? ==> reg.tasks == Landed(m, t, cancelAt, q0 + 2 * i + 2)
    ensures reg.tasks == m || reg.tasks == CancelRequested(m, t)
  {
    var cancelled := Checkpoint(reg, t, cancelAt, q0 + 2 * i, m);
    if cancelled {
      return LoopStopped(Cancelled(t));
    }
    var pageText := ProcessImage(reg, t, reply(i), cancelAt, q0 + 2 * i + 1, m);
    if pageText.Raised? && IsOwnCancel(pageText.exc) {
      return LoopStopped(pageText.exc);
    }
    if pageText.Returned? {
      return Looping(allText + ["--- 第" + NatToString(i + 1) + "页 ---\n" + pageText.value + "\n"]);
    }
    var errorMsg := "处理第" + NatToString(i + 1) + "页图片失败: " + Str(pageText.exc);
    return Looping(allText + ["--- 第" + NatToString(i + 1) + "页 (处理失败) ---\n" + errorMsg + "\n"]);
  }

  /** The clean-up after the page loop: each page image, then the task directory. */
  method RemoveTemporaries(imagePaths: seq<string>, t: string) returns (events: seq<Event>)
    ensures events == Cleanup(imagePaths, t)
  {
    events := [];
    for j := 0 to |imagePaths|
      invariant events == seq(j, k requires 0 <= k < j => Removed(imagePaths[k]))
    {
      events := events + [Removed(imagePaths[j])];
    }
    var taskImageDir := PathJoin(TempImageDir, t);
    events := events + [RemovedDir(taskImageDir)];
  }

  lemma {:induction false} LoopStoppedPersists(reply: nat -> ImageReply, m: map<string, bool>, t: string, cancelAt: nat,
                                              q0: nat, k: nat, n: nat)
    requires k <= n
    requires LoopRun(reply, m, t, cancelAt, q0, k).LoopStopped?
    ensures LoopRun(reply, m, t, cancelAt, q0, n) == LoopRun(reply, m, t, cancelAt, q0, k)
    decreases n - k
  {
    if k < n {
      LoopStoppedPersists(reply, m, t, cancelAt, q0, k + 1, n);
    }
  }

  /** No reply raises this service's own cancellation exception. */
  predicate RepliesPlain(reply: nat -> ImageReply, k: nat)
  {
    forall i :: 0 <= i < k ==> !(ReplyOutcome(reply(i)).Raised? && IsOwnCancel(ReplyOutcome(reply(i)).exc))
  }

  /** The sections of pages 0 .. k-1 when nothing is cancelled. */
  function Sections(reply: nat -> ImageReply, k: nat): (r: seq<string>)
    ensures |r| == k
  {
    if k == 0 then [] else Sections(reply, k - 1) + [Section(k - 1, ReplyOutcome(reply(k - 1)))]
  }

  lemma {:induction false} LoopRunQuiet(reply: nat -> ImageReply, m: map<string, bool>, t: string, cancelAt: nat, q0: nat, k: nat)
    requires k > 0 ==> !SeenCancelled(m, t, cancelAt, q0 + 2 * k - 1)
    requires RepliesPlain(reply, k)
    ensures LoopRun(reply, m, t, cancelAt, q0, k) == Looping(Sections(reply, k))
    decreases k
  {
    if k > 0 {
      var i := k - 1;
      if i > 0 {
        QuietBefore(m, t, cancelAt, q0 + 2 * i - 1, q0 + 2 * i + 1);
      }
      LoopRunQuiet(reply, m, t, cancelAt, q0, i);
      QuietPage(reply, m, t, cancelAt, q0, i, Sections(reply, i));
    }
  }

  /** A query that does not see the cancellation is preceded only by queries that do not see it. */
  lemma QuietBefore(m: map<string, bool>, t: string, cancelAt: nat, j: nat, k: nat)
    requires j <= k && !SeenCancelled(m, t, cancelAt, k)
    ensures !SeenCancelled(m, t, cancelAt, j)
  {
  }

  /** Page i with neither of its queries seeing a cancellation, and a reply that is not a cancellation: its section is added. */
  lemma QuietPage(reply: nat -> ImageReply, m: map<string, bool>, t: string, cancelAt: nat, q0: nat, i: nat, s: seq<string>)
    requires !SeenCancelled(m, t, cancelAt, q0 + 2 * i + 1)
    requires !(ReplyOutcome(reply(i)).Raised? && IsOwnCancel(ReplyOutcome(reply(i)).exc))
    ensures PageStep(reply, m, t, cancelAt, q0, i, s) == Looping(s + [Section(i, ReplyOutcome(reply(i)))])
  {
    QuietBefore(m, t, cancelAt, q0 + 2 * i, q0 + 2 * i + 1);
  }

  /**
   * Failure isolation: without cancellation, every page contributes a section in
   * page order (its text, or the failure marker and message), the sections are
   * joined with "\n", and the temporary page images and directory are removed.
   * The split asks queries 0 .. n and page i asks 1 + n + 2i and 2 + n + 2i, so
   * query 3n is the job's last: a cancel landing after it changes nothing.
   */
  lemma PdfIsolatesPageFailures(t: string, n: nat, reply: nat -> ImageReply, m: map<string, bool>, cancelAt: nat)
    requires !SeenCancelled(m, t, cancelAt, 3 * n) && RepliesPlain(reply, n)
    ensures SplitRun(t, m, cancelAt, n).Splitting?
    ensures ProcessPdfSpec(t, RasterPages(n), reply, m, cancelAt)
         == (Returned(Join("\n", Sections(reply, n))),
             [MadeDir(TaskImageDir(t))] + SplitRun(t, m, cancelAt, n).events + Cleanup(PagePaths(t, n), t))
  {
    SplitNamesPagesInOrder(t, n, m, cancelAt);
    LoopRunQuiet(reply, m, t, cancelAt, 1 + n, n);
  }

  /**
   * A cancellation seen inside process_image for page k propagates: the PDF
   * fails with it, the remaining pages are skipped, and no temporary file is removed.
   */
  lemma PdfCancelInsidePageAborts(t: string, n: nat, k: nat, reply: nat -> ImageReply, m: map<string, bool>, cancelAt: nat)
    requires k < n && RepliesPlain(reply, k)
    requires !SeenCancelled(m, t, cancelAt, 1 + n + 2 * k) && SeenCancelled(m, t, cancelAt, 1 + n + 2 * k + 1)
    ensures ProcessPdfSpec(t, RasterPages(n), reply, m, cancelAt).0 == Raised(Cancelled(t))
    ensures forall e :: e in ProcessPdfSpec(t, RasterPages(n), reply, m, cancelAt).1 ==> !e.Removed? && !e.RemovedDir?
  {
    QuietBefore(m, t, cancelAt, n, 1 + n + 2 * k);
    QuietSplit(t, n, m, cancelAt);
    LoopCancelledInside(reply, m, t, cancelAt, 1 + n, k, n);
    assert ProcessPdfSpec(t, RasterPages(n), reply, m, cancelAt)
        == (Raised(Cancelled(t)), [MadeDir(TaskImageDir(t))] + SplitRun(t, m, cancelAt, n).events);
  }

  /** Without cancellation the split returns every page's path, having made the directory and saved the images. */
  lemma QuietSplit(t: string, n: nat, m: map<string, bool>, cancelAt: nat)
    requires !SeenCancelled(m, t, cancelAt, n)
    ensures SplitRun(t, m, cancelAt, n).Splitting?
    ensures SplitSpec(t, RasterPages(n), m, cancelAt)
         == (Returned(PagePaths(t, n)), [MadeDir(TaskImageDir(t))] + SplitRun(t, m, cancelAt, n).events)
    ensures forall e :: e in SplitRun(t, m, cancelAt, n).events ==> e.SavedImage?
  {
    QuietBefore(m, t, cancelAt, 0, n);
    SplitRunQuiet(t, m, cancelAt, n);
    SavesOnly(t, m, cancelAt, n);
  }

  /** A cancellation seen by page k's process_image query stops the page loop with it, whatever follows. */
  lemma LoopCancelledInside(reply: nat -> ImageReply, m: map<string, bool>, t: string, cancelAt: nat, q0: nat, k: nat, n: nat)
    requires k < n && RepliesPlain(reply, k)
    requires !SeenCancelled(m, t, cancelAt, q0 + 2 * k) && SeenCancelled(m, t, cancelAt, q0 + 2 * k + 1)
    ensures LoopRun(reply, m, t, cancelAt, q0, n) == LoopStopped(Cancelled(t))
  {
    if k > 0 {
      QuietBefore(m, t, cancelAt, q0 + 2 * k - 1, q0 + 2 * k);
    }
    LoopRunQuiet(reply, m, t, cancelAt, q0, k);
    CancelInsidePage(reply, m, t, cancelAt, q0, k, Sections(reply, k));
    assert LoopRun(reply, m, t, cancelAt, q0, k + 1) == LoopStopped(Cancelled(t));
    LoopStoppedPersists(reply, m, t, cancelAt, q0, k + 1, n);
  }

  /** Page i whose first query passes and whose process_image query sees the cancellation stops the loop with it. */
  lemma CancelInsidePage(reply: nat -> ImageReply, m: map<string, bool>, t: string, cancelAt: nat, q0: nat, i: nat, s: seq<string>)
    requires !SeenCancelled(m, t, cancelAt, q0 + 2 * i) && SeenCancelled(m, t, cancelAt, q0 + 2 * i + 1)
    ensures PageStep(reply, m, t, cancelAt, q0, i, s) == LoopStopped(Cancelled(t))
  {
  }

  lemma {:induction false} SavesOnly(t: string, m: map<string, bool>, cancelAt: nat, k: nat)
    requires SplitRun(t, m, cancelAt, k).Splitting?
    ensures forall e :: e in SplitRun(t, m, cancelAt, k).events ==> e.SavedImage?
    decreases k
  {
    if k > 0 {
      SavesOnly(t, m, cancelAt, k - 1);
    }
  }

  // ================================================================ process_file

  /** The extensions process_file sends to process_image (no ".gif"). */
  const ImageExtensions: seq<string> := [".png", ".jpg", ".jpeg", ".tif", ".tiff", ".bmp"]

  /** Everything process_file needs from the outside world: the rasterizer and the replies per image. */
  datatype Inputs = Inputs(raster: Rasterized, reply: nat -> ImageReply)

  function ProcessFileSpec(path: string, t: string, io: Inputs, m0: map<string, bool>, cancelAt: nat)
    : (Outcome<string>, seq<Event>)
  {
    var m := Started(m0, t);
    var ext := Ext(path);
    if ext == ".pdf" then ProcessPdfSpec(t, io.raster, io.reply, m, cancelAt)
    else if ext in ImageExtensions then (ProcessImageSpec(t, io.reply(0), m, cancelAt, 0), [])
    else (Raised(ValueError("不支持的文件类型: " + ext)), [])
  }

  /** process_file registers t, dispatches, and unregisters t on every exit. */
  method ProcessFile(reg: TaskRegistry, path: string, t: string, io: Inputs, cancelAt: nat)
    returns (r: Outcome<string>, events: seq<Event>)
    modifies reg
    ensures (r, events) == ProcessFileSpec(path, t, io, old(reg.tasks), cancelAt)
    ensures reg.tasks == old(reg.tasks) - {t}
  {
    ghost var m0 := reg.tasks;
    reg.StartTask(t);
    ghost var m := reg.tasks;
    var (_, ext0) := SplitExt(path);
    var ext := Lower(ext0);
    assert ext == Ext(path);
    events := [];
    if ext == ".pdf" {
      r, events := ProcessPdf(reg, t, io.raster, io.reply, cancelAt, m);
    } else if ext in ImageExtensions {
      r := ProcessImage(reg, t, io.reply(0), cancelAt, 0, m);
    } else {
      var errorMsg := "不支持的文件类型: " + ext;
      r := Raised(ValueError(errorMsg));
    }
    FinishUndoesStart(m0, t, reg.tasks);
    reg.FinishTask(t);
  }

  /** Unlike the other two services, a GIF is rejected. */
  lemma GifRejected(base: string, t: string, io: Inputs, m0: map<string, bool>, cancelAt: nat)
    requires base != "" && '.' !in base && '/' !in base
    ensures ProcessFileSpec(base + ".gif", t, io, m0, cancelAt) == (Raised(ValueError("不支持的文件类型: .gif")), [])
  {
    assert Ext(base + ".gif") == ".gif" by {
      ExtOfName(base, ".gif");
      assert Lower(".gif") == ".gif";
    }
    assert ".gif" != ".pdf" && ".gif" !in ImageExtensions;
    assert "不支持的文件类型: " + ".gif" == "不支持的文件类型: .gif";
  }
}
