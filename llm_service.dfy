/**
 * LLMService (app/services/llm_service.py): text recognition through a
 * multimodal chat-completions API.
 *
 * The service's `_processing_tasks` dictionary is a Registry.TaskRegistry.
 * The HTTP call of one attempt is an oracle `api(page, attempt)`; the file
 * system answers "does this path exist"; the rasterizer is an outcome value.
 * A concurrent cancel_task lands just before query number `cancelAt` of the
 * job's `_is_task_cancelled` queries (see Registry.Checkpoint).
 */
module LlmService {
  import opened Common
  import opened Registry

  // ================================================================ JSON values

  /** A value decoded by `response.json()` (floats are not modelled). */
  datatype Json =
    | JNull
    | JBool(b: bool)
    | JInt(n: int)
    | JStr(s: string)
    | JArr(items: seq<Json>)
    | JObj(fields: map<string, Json>)

  /** `type(v).__name__`. */
  function TypeName(v: Json): string
  {
    match v
    case JNull => "NoneType"
    case JBool(_) => "bool"
    case JInt(_) => "int"
    case JStr(_) => "str"
    case JArr(_) => "list"
    case JObj(_) => "dict"
  }

  /** Python truthiness. */
  predicate Truthy(v: Json)
  {
    match v
    case JNull => false
    case JBool(b) => b
    case JInt(n) => n != 0
    case JStr(s) => s != ""
    case JArr(items) => items != []
    case JObj(fields) => fields != map[]
  }

  /** `v.get(key, default)`: only a dict has `get`. */
  function Get(v: Json, key: string, default: Json): (r: Outcome<Json>)
    ensures v.JObj? && key in v.fields ==> r == Returned(v.fields[key])
    ensures v.JObj? && key !in v.fields ==> r == Returned(default)
    ensures !v.JObj? ==> r.Raised? && r.exc.AttributeError?
  {
    match v
    case JObj(fields) => Returned(if key in fields then fields[key] else default)
    case _ => Raised(AttributeError("'" + TypeName(v) + "' object has no attribute 'get'"))
  }

  /** `v[0]`: a list or string gives its first element; a JSON dict has no key 0. */
  function First(v: Json): (r: Outcome<Json>)
    ensures r.Returned? <==> (v.JArr? && v.items != []) || (v.JStr? && v.s != "")
  {
    match v
    case JArr(items) =>
      if items == [] then Raised(IndexError("list index out of range")) else Returned(items[0])
    case JStr(s) =>
      if s == "" then Raised(IndexError("string index out of range")) else Returned(JStr([s[0]]))
    case JObj(_) => Raised(Failure("KeyError", "0"))
    case _ => Raised(Failure("TypeError", "'" + TypeName(v) + "' object is not subscriptable"))
  }

  /** `api_response.get('choices', [{}])[0].get('message', {}).get('content', '')`. */
  function Content(resp: Json): Outcome<Json>
  {
    match Get(resp, "choices", JArr([JObj(map[])]))
    case Raised(e) => Raised(e)
    case Returned(choices) =>
      match First(choices)
      case Raised(e) => Raised(e)
      case Returned(choice) =>
        match Get(choice, "message", JObj(map[]))
        case Raised(e) => Raised(e)
        case Returned(message) => Get(message, "content", JStr(""))
  }

  const NoTextFound: string := "API响应中没有找到文本内容"

  /**
   * `_extract_text_from_api_response`: the content when truthy, the fixed
   * placeholder when it is empty or missing, and an error text when the lookup
   * itself raises. It never raises and never gives an empty text.
   */
  function ExtractText(resp: Json): (r: Json)
    ensures Truthy(r)
    ensures Content(resp).Raised? ==> r == JStr("提取文本内容失败: " + Str(Content(resp).exc))
    ensures Content(resp).Returned? && Truthy(Content(resp).value) ==> r == Content(resp).value
    ensures Content(resp).Returned? && !Truthy(Content(resp).value) ==> r == JStr(NoTextFound)
  {
    match Content(resp)
    case Raised(e) => JStr("提取文本内容失败: " + Str(e))
    case Returned(v) => if Truthy(v) then v else JStr(NoTextFound)
  }

  /** The well-formed chat-completions response carrying text s. */
  function ChatResponse(s: string): Json
  {
    JObj(map["choices" := JArr([JObj(map["message" := JObj(map["content" := JStr(s)])])])])
  }

  /** Round trip: the text put into a well-formed response is the text extracted, when non-empty. */
  lemma ExtractChatResponse(s: string)
    ensures s != "" ==> ExtractText(ChatResponse(s)) == JStr(s)
    ensures s == "" ==> ExtractText(ChatResponse(s)) == JStr(NoTextFound)
  {
    var choice := JObj(map["message" := JObj(map["content" := JStr(s)])]);
    assert Get(ChatResponse(s), "choices", JArr([JObj(map[])])) == Returned(JArr([choice]));
    assert First(JArr([choice])) == Returned(choice);
  }

  /** A response without "choices" reads as one empty choice: no text found. */
  lemma ExtractWithoutChoices(fields: map<string, Json>)
    requires "choices" !in fields
    ensures ExtractText(JObj(fields)) == JStr(NoTextFound)
  {
    assert First(JArr([JObj(map[])])) == Returned(JObj(map[]));
  }

  /** An empty "choices" list makes the lookup raise IndexError, reported as an extraction failure. */
  lemma ExtractEmptyChoices(fields: map<string, Json>)
    requires "choices" in fields && fields["choices"] == JArr([])
    ensures ExtractText(JObj(fields)) == JStr("提取文本内容失败: list index out of range")
  {
    assert Content(JObj(fields)) == Raised(IndexError("list index out of range")) by {
      assert Get(JObj(fields), "choices", JArr([JObj(map[])])) == Returned(JArr([]));
    }
    assert "提取文本内容失败: " + Str(IndexError("list index out of range")) == "提取文本内容失败: list index out of range";
  }

  /** A response that is not a JSON object fails on its first `.get`. */
  lemma ExtractFromNonObject(resp: Json)
    requires !resp.JObj?
    ensures ExtractText(resp) == JStr("提取文本内容失败: " + ("'" + TypeName(resp) + "' object has no attribute 'get'"))
  {
    assert Content(resp) == Raised(AttributeError("'" + TypeName(resp) + "' object has no attribute 'get'"));
  }

  /** `str(v)` inside an f-string; containers are shown only by their brackets. */
  function Show(v: Json): string
  {
    match v
    case JNull => "None"
    case JBool(b) => if b then "True" else "False"
    case JInt(n) => IntToString(n)
    case JStr(s) => s
    case JArr(_) => "[...]"
    case JObj(_) => "{...}"
  }

  // ================================================================ _call_llm_api and @retry

  /** One attempt of `_call_llm_api`: the decoded response, or what requests / json raised. */
  datatype ApiOutcome = ApiOk(response: Json) | ApiErr(e: Exc)

  /** `api(page, attempt)`: what attempt number `attempt` of the call for page `page` does. */
  type Api = (nat, nat) -> ApiOutcome

  /** `@retry(tries=3, delay=2, backoff=2)`. */
  const Tries: nat := 3
  const Delay: nat := 2
  const Backoff: nat := 2

  function Power(b: nat, e: nat): nat
  {
    if e == 0 then 1 else b * Power(b, e - 1)
  }

  /** The sleeps before attempts 2 .. n+1: delay, delay*backoff, ... */
  function Sleeps(n: nat): seq<nat>
  {
    if n == 0 then [] else Sleeps(n - 1) + [Delay * Power(Backoff, n - 1)]
  }

  /**
   * Reference definition of the decorated call from attempt a on: the first
   * attempt that succeeds wins; the last attempt's error is re-raised. The
   * second component is the number of attempts made in total.
   */
  function Attempts(api: Api, p: nat, a: nat): (r: (Outcome<Json>, nat))
    requires a < Tries
    ensures a < r.1 <= Tries
    decreases Tries - a
  {
    match api(p, a)
    case ApiOk(resp) => (Returned(resp), a + 1)
    case ApiErr(e) => if a + 1 == Tries then (Raised(e), Tries) else Attempts(api, p, a + 1)
  }

  /**
   * `_call_llm_api` under its retry decorator, with the decorator's own loop:
   * the result is the reference one, and it slept `Sleeps(attempts - 1)`.
   */
  method CallLlmApi(api: Api, p: nat) returns (r: Outcome<Json>, sleeps: seq<nat>)
    ensures (r, |sleeps| + 1) == Attempts(api, p, 0)
    ensures sleeps == Sleeps(|sleeps|)
  {
    var tries := Tries;
    var delay := Delay;
    sleeps := [];
    while tries > 0
      invariant 0 < tries <= Tries
      invariant |sleeps| == Tries - tries
      invariant sleeps == Sleeps(|sleeps|)
      invariant delay == Delay * Power(Backoff, |sleeps|)
      invariant Attempts(api, p, 0) == Attempts(api, p, |sleeps|)
      decreases tries
    {
      var attempt := api(p, Tries - tries);
      if attempt.ApiOk? {
        return Returned(attempt.response), sleeps;
      }
      tries := tries - 1;
      if tries == 0 {
        return Raised(attempt.e), sleeps;
      }
      sleeps := sleeps + [delay];
      delay := delay * Backoff;
    }
    assert false;
  }

  /** At most three attempts, 2 s then 4 s apart. */
  lemma RetrySchedule(api: Api, p: nat)
    ensures 1 <= Attempts(api, p, 0).1 <= 3
    ensures Sleeps(Attempts(api, p, 0).1 - 1) == [2, 4][..Attempts(api, p, 0).1 - 1]
  {
    assert Sleeps(1) == [2];
    assert Sleeps(2) == [2, 4];
  }

  /** Two failed attempts then a success: three attempts, the third response. */
  lemma RetryRecoversOnThirdAttempt(api: Api, p: nat)
    requires api(p, 0).ApiErr? && api(p, 1).ApiErr? && api(p, 2).ApiOk?
    ensures Attempts(api, p, 0) == (Returned(api(p, 2).response), 3)
  {
  }

  /** Three failed attempts: the third error is raised. */
  lemma RetryGivesUpAfterThree(api: Api, p: nat)
    requires api(p, 0).ApiErr? && api(p, 1).ApiErr? && api(p, 2).ApiErr?
    ensures Attempts(api, p, 0) == (Raised(api(p, 2).e), 3)
  {
  }

  // ================================================================ process_image

  function Cancelled(t: string): Exc
  {
    TaskCancelled(LlmCancel, "任务已取消: " + t)
  }

  /** `len(text_content)` in the log line: fine for str, list and dict; None is never returned. */
  predicate HasLen(v: Json)
  {
    v.JStr? || v.JArr? || v.JObj?
  }

  /** process_image for a registry m at the start and the cancel arriving before query cancelAt. */
  function ProcessImageSpec(path: string, t: string, exists_: bool, api: Api,
                            m: map<string, bool>, cancelAt: nat): Outcome<Json>
  {
    if SeenCancelled(m, t, cancelAt, 0) then Raised(Cancelled(t))
    else if !exists_ then Raised(FileNotFound("图片文件不存在: " + path))
    else match Attempts(api, 0, 0).0
      case Raised(e) => Raised(e)
      case Returned(resp) =>
        var text := ExtractText(resp);
        if HasLen(text) then Returned(text)
        else Raised(Failure("TypeError", "object of type '" + TypeName(text) + "' has no len()"))
  }

  method ProcessImage(reg: TaskRegistry, path: string, t: string, exists_: bool, api: Api,
                      cancelAt: nat, ghost m: map<string, bool>)
    returns (r: Outcome<Json>)
    requires reg.tasks == m
    modifies reg
    ensures r == ProcessImageSpec(path, t, exists_, api, m, cancelAt)
    ensures reg.tasks == Landed(m, t, cancelAt, 1)
  {
    var cancelled := Checkpoint(reg, t, cancelAt, 0, m);
    if cancelled {
      return Raised(Cancelled(t));
    }
    if !exists_ {
      return Raised(FileNotFound("图片文件不存在: " + path));
    }
    var apiResponse, _ := CallLlmApi(api, 0);
    if apiResponse.Raised? {
      return apiResponse;
    }
    var textContent := ExtractText(apiResponse.value);
    if !HasLen(textContent) {
      return Raised(Failure("TypeError", "object of type '" + TypeName(textContent) + "' has no len()"));
    }
    return Returned(textContent);
  }

  /** A cancellation seen on the first query raises before the file is even looked at. */
  lemma ImageCancelledFirst(path: string, t: string, exists_: bool, api: Api, m: map<string, bool>, cancelAt: nat)
    requires SeenCancelled(m, t, cancelAt, 0)
    ensures ProcessImageSpec(path, t, exists_, api, m, cancelAt) == Raised(Cancelled(t))
  {
  }

  /** A well-formed reply with non-empty text on the first attempt is returned as that text. */
  lemma ImageReturnsReplyText(path: string, t: string, api: Api, m: map<string, bool>, cancelAt: nat, s: string)
    requires !SeenCancelled(m, t, cancelAt, 0) && s != ""
    requires api(0, 0) == ApiOk(ChatResponse(s))
    ensures ProcessImageSpec(path, t, true, api, m, cancelAt) == Returned(JStr(s))
  {
    ExtractChatResponse(s);
  }

  // ================================================================ process_pdf

  /** What reading the PDF and `pdf2image.convert_from_bytes` do: the page count or an exception. */
  datatype Rasterized = RasterFailed(e: Exc) | RasterPages(count: nat)

  function PageSection(i: nat, text: string): string
  {
    "===== 第 " + NatToString(i + 1) + " 页 =====\n" + text + "\n"
  }

  /** The text page i contributes when its call returns resp. */
  function PageText(resp: Json): string
  {
    Show(ExtractText(resp))
  }

  /** The page loop after its first k pages: still going with `all_text`, or stopped by an exception. */
  datatype PdfState = Going(sections: seq<string>) | Stopped(e: Exc)

  function PdfRun(n: nat, api: Api, m: map<string, bool>, t: string, cancelAt: nat, k: nat): PdfState
    requires k <= n
    decreases k
  {
    if k == 0 then Going([])
    else match PdfRun(n, api, m, t, cancelAt, k - 1)
      case Stopped(e) => Stopped(e)
      case Going(s) => PdfStep(api, m, t, cancelAt, k - 1, s)
  }

  /** One iteration, for page i after the sections s: query number i + 1, then the API call. */
  function PdfStep(api: Api, m: map<string, bool>, t: string, cancelAt: nat, i: nat, s: seq<string>): PdfState
  {
    if SeenCancelled(m, t, cancelAt, i + 1) then Stopped(Cancelled(t))
    else match Attempts(api, i, 0).0
      case Raised(e) => Stopped(e)
      case Returned(resp) => Going(s + [PageSection(i, PageText(resp))])
  }

  /** process_pdf: query 0 before anything, query i+1 before page i. */
  function ProcessPdfSpec(path: string, t: string, exists_: bool, raster: Rasterized, api: Api,
                          m: map<string, bool>, cancelAt: nat): Outcome<string>
  {
    if SeenCancelled(m, t, cancelAt, 0) then Raised(Cancelled(t))
    else if !exists_ then Raised(FileNotFound("PDF文件不存在: " + path))
    else match raster
      case RasterFailed(e) => Raised(e)
      case RasterPages(n) =>
        if n == 0 then Raised(ValueError("PDF转换后没有生成任何图片"))
        else match PdfRun(n, api, m, t, cancelAt, n)
          case Stopped(e) => Raised(e)
          case Going(s) => Returned(Join("\n", s))
  }

  method ProcessPdf(reg: TaskRegistry, path: string, t: string, exists_: bool, raster: Rasterized, api: Api,
                    cancelAt: nat, ghost m: map<string, bool>)
    returns (r: Outcome<string>)
    requires reg.tasks == m
    modifies reg
    ensures r == ProcessPdfSpec(path, t, exists_, raster, api, m, cancelAt)
    ensures reg.tasks == m || reg.tasks == CancelRequested(m, t)
  {
    var cancelled := Checkpoint(reg, t, cancelAt, 0, m);
    if cancelled {
      return Raised(Cancelled(t));
    }
    if !exists_ {
      return Raised(FileNotFound("PDF文件不存在: " + path));
    }
    if raster.RasterFailed? {
      return Raised(raster.e);
    }
    var n := raster.count;
    if n == 0 {
      return Raised(ValueError("PDF转换后没有生成任何图片"));
    }
    var pages := ProcessPages(reg, n, t, api, cancelAt, m);
    if pages.Stopped? {
      return Raised(pages.e);
    }
    return Returned(Join("\n", pages.sections));
  }

  /** The page loop of process_pdf: query i+1, then the call for page i, for each page in order. */
  method ProcessPages(reg: TaskRegistry, n: nat, t: string, api: Api, cancelAt: nat, ghost m: map<string, bool>)
    returns (st: PdfState)
    requires reg.tasks == Landed(m, t, cancelAt, 1)
    modifies reg
    ensures st == PdfRun(n, api, m, t, cancelAt, n)
    ensures reg.tasks == m || reg.tasks == CancelRequested(m, t)
  {
    var allText: seq<string> := [];
    var i := 0;
    while i < n
      invariant 0 <= i <= n
      invariant PdfRun(n, api, m, t, cancelAt, i) == Going(allText)
      invariant reg.tasks == Landed(m, t, cancelAt, i + 1)
    {
      st := ProcessPage(reg, t, api, cancelAt, i, allText, m);
      assert PdfRun(n, api, m, t, cancelAt, i + 1) == st;
      if st.Stopped? {
        PdfStoppedPersists(n, api, m, t, cancelAt, i + 1, n);
        return;
      }
      allText := st.sections;
      i := i + 1;
    }
    return Going(allText);
  }

  /** One pass of the page loop's body: the cancellation check, then the API call and the page's section. */
  method ProcessPage(reg: TaskRegistry, t: string, api: Api, cancelAt: nat, i: nat, allText: seq<string>,
                     ghost m: map<string, bool>)
    returns (st: PdfState)
    requires reg.tasks == Landed(m, t, cancelAt, i + 1)
    modifies reg
    ensures st == PdfStep(api, m, t, cancelAt, i, allText)
    ensures reg.tasks == Landed(m, t, cancelAt, i + 2)
  {
    var cancelled := Checkpoint(reg, t, cancelAt, i + 1, m);
    if cancelled {
      return Stopped(Cancelled(t));
    }
    var apiResponse, _ := CallLlmApi(api, i);
    if apiResponse.Raised? {
      return Stopped(apiResponse.exc);
    }
    var pageText := ExtractText(apiResponse.value);
    return Going(allText + [PageSection(i, Show(pageText))]);
  }

  lemma {:induction false} PdfStoppedPersists(n: nat, api: Api, m: map<string, bool>, t: string, cancelAt: nat, k: nat, k': nat)
    requires k <= k' <= n
    requires PdfRun(n, api, m, t, cancelAt, k).Stopped?
    ensures PdfRun(n, api, m, t, cancelAt, k') == PdfRun(n, api, m, t, cancelAt, k)
    decreases k' - k
  {
    if k < k' {
      PdfStoppedPersists(n, api, m, t, cancelAt, k, k' - 1);
    }
  }

  /** No query among 0 .. k sees a cancellation, and every page before k gets a response. */
  predicate Undisturbed(api: Api, m: map<string, bool>, t: string, cancelAt: nat, k: nat)
  {
    (forall j :: 0 <= j <= k ==> !SeenCancelled(m, t, cancelAt, j))
    && (forall i :: 0 <= i < k ==> Attempts(api, i, 0).0.Returned?)
  }

  /** The sections of pages 0 .. k-1, in page order. */
  function Sections(api: Api, k: nat): (r: seq<string>)
    requires forall i :: 0 <= i < k ==> Attempts(api, i, 0).0.Returned?
    ensures |r| == k
  {
    if k == 0 then [] else Sections(api, k - 1) + [PageSection(k - 1, PageText(Attempts(api, k - 1, 0).0.value))]
  }

  lemma {:induction false} PdfRunUndisturbed(n: nat, api: Api, m: map<string, bool>, t: string, cancelAt: nat, k: nat)
    requires k <= n && Undisturbed(api, m, t, cancelAt, k)
    ensures PdfRun(n, api, m, t, cancelAt, k) == Going(Sections(api, k))
    decreases k
  {
    if k > 0 {
      assert Undisturbed(api, m, t, cancelAt, k - 1);
      PdfRunUndisturbed(n, api, m, t, cancelAt, k - 1);
      assert !SeenCancelled(m, t, cancelAt, k);
      assert Attempts(api, k - 1, 0).0.Returned?;
    }
  }

  /** Undisturbed, the result is every page's section in page order, joined with "\n". */
  lemma PdfJoinsAllPages(path: string, t: string, n: nat, api: Api, m: map<string, bool>, cancelAt: nat)
    requires n > 0 && Undisturbed(api, m, t, cancelAt, n)
    ensures ProcessPdfSpec(path, t, true, RasterPages(n), api, m, cancelAt) == Returned(Join("\n", Sections(api, n)))
  {
    PdfRunUndisturbed(n, api, m, t, cancelAt, n);
  }

  /**
   * No per-page isolation: when page k's call raises (all attempts failed)
   * and nothing before it was disturbed, the whole document fails with that error.
   */
  lemma PdfPageErrorAborts(path: string, t: string, n: nat, api: Api, m: map<string, bool>, cancelAt: nat, k: nat)
    requires k < n && Undisturbed(api, m, t, cancelAt, k)
    requires !SeenCancelled(m, t, cancelAt, k + 1)
    requires Attempts(api, k, 0).0.Raised?
    ensures ProcessPdfSpec(path, t, true, RasterPages(n), api, m, cancelAt) == Raised(Attempts(api, k, 0).0.exc)
  {
    PdfRunUndisturbed(n, api, m, t, cancelAt, k);
    PdfStoppedPersists(n, api, m, t, cancelAt, k + 1, n);
  }

  /** A cancellation seen before page k aborts the document with the LLM TaskCancelledException. */
  lemma PdfCancelledBeforePage(path: string, t: string, n: nat, api: Api, m: map<string, bool>, cancelAt: nat, k: nat)
    requires k < n && Undisturbed(api, m, t, cancelAt, k)
    requires SeenCancelled(m, t, cancelAt, k + 1)
    ensures ProcessPdfSpec(path, t, true, RasterPages(n), api, m, cancelAt) == Raised(Cancelled(t))
  {
    PdfRunUndisturbed(n, api, m, t, cancelAt, k);
    PdfStoppedPersists(n, api, m, t, cancelAt, k + 1, n);
  }

  // ================================================================ process_file

  /** The extensions process_file sends to process_image. */
  const ImageExtensions: seq<string> := [".jpg", ".jpeg", ".png", ".tiff", ".tif", ".bmp", ".gif"]

  /** Everything process_file needs from the outside world. */
  datatype Inputs = Inputs(exists_: bool, raster: Rasterized, api: Api)

  /** A PDF's text as the JSON string process_file returns. */
  function AsJson(o: Outcome<string>): Outcome<Json>
  {
    match o
    case Returned(s) => Returned(JStr(s))
    case Raised(e) => Raised(e)
  }

  /** process_file on a registry m0, as a value: dispatch on the lower-cased extension. */
  function ProcessFileSpec(path: string, t: string, io: Inputs, m0: map<string, bool>, cancelAt: nat): Outcome<Json>
  {
    var m := Started(m0, t);
    var ext := Ext(path);
    if ext == ".pdf" then AsJson(ProcessPdfSpec(path, t, io.exists_, io.raster, io.api, m, cancelAt))
    else if ext in ImageExtensions then ProcessImageSpec(path, t, io.exists_, io.api, m, cancelAt)
    else Raised(ValueError("不支持的文件类型: " + ext))
  }

  /** process_file registers t, dispatches, and unregisters t on every exit. */
  method ProcessFile(reg: TaskRegistry, path: string, t: string, io: Inputs, cancelAt: nat)
    returns (r: Outcome<Json>)
    modifies reg
    ensures r == ProcessFileSpec(path, t, io, old(reg.tasks), cancelAt)
    ensures reg.tasks == old(reg.tasks) - {t}
  {
    ghost var m0 := reg.tasks;
    reg.StartTask(t);
    ghost var m := reg.tasks;
    var (_, ext0) := SplitExt(path);
    var ext := Lower(ext0);
    assert ext == Ext(path);
    if ext == ".pdf" {
      var result := ProcessPdf(reg, path, t, io.exists_, io.raster, io.api, cancelAt, m);
      r := AsJson(result);
    } else if ext in ImageExtensions {
      r := ProcessImage(reg, path, t, io.exists_, io.api, cancelAt, m);
    } else {
      r := Raised(ValueError("不支持的文件类型: " + ext));
    }
    FinishUndoesStart(m0, t, reg.tasks);
    reg.FinishTask(t);
  }

  /** Once registered by process_file, a query sees the cancellation exactly when it comes at or after cancelAt. */
  lemma StartedJobSeesCancel(m0: map<string, bool>, t: string, cancelAt: nat, k: nat)
    ensures SeenCancelled(Started(m0, t), t, cancelAt, k) <==> cancelAt <= k
  {
  }

  /** The extension test is case-insensitive: "<base>.PDF" goes to the PDF path like "<base>.pdf". */
  lemma UpperCasePdfIsPdf(base: string, t: string, io: Inputs, m0: map<string, bool>, cancelAt: nat)
    requires base != "" && '.' !in base && '/' !in base
    ensures ProcessFileSpec(base + ".PDF", t, io, m0, cancelAt)
         == AsJson(ProcessPdfSpec(base + ".PDF", t, io.exists_, io.raster, io.api, Started(m0, t), cancelAt))
    ensures ProcessFileSpec(base + ".pdf", t, io, m0, cancelAt)
         == AsJson(ProcessPdfSpec(base + ".pdf", t, io.exists_, io.raster, io.api, Started(m0, t), cancelAt))
  {
    assert Ext(base + ".PDF") == ".pdf" by {
      ExtOfName(base, ".PDF");
      assert Lower(".PDF") == ".pdf";
    }
    assert Ext(base + ".pdf") == ".pdf" by {
      ExtOfName(base, ".pdf");
      assert Lower(".pdf") == ".pdf";
    }
  }

  /** A file named just ".pdf" has no extension, so it is rejected. */
  lemma DotFileHasNoExtension(t: string, io: Inputs, m0: map<string, bool>, cancelAt: nat)
    ensures ProcessFileSpec("uploads/.pdf", t, io, m0, cancelAt) == Raised(ValueError("不支持的文件类型: "))
  {
    var p := "uploads/.pdf";
    assert p[7] == '/' && p[8] == '.';
    assert RFind(p, '/') == 7;
    assert RFind(p, '.') == 8;
    assert AllDots(p[8..8]);
    assert SplitExt(p).1 == "";
    assert Ext(p) == "";
    assert "" !in ImageExtensions;
    assert "不支持的文件类型: " + "" == "不支持的文件类型: ";
  }

  /** A cancel request that lands before the first query aborts every supported file. */
  lemma CancelledBeforeStart(path: string, t: string, io: Inputs, m0: map<string, bool>)
    requires Ext(path) == ".pdf" || Ext(path) in ImageExtensions
    ensures ProcessFileSpec(path, t, io, m0, 0) == Raised(Cancelled(t))
  {
  }
}
