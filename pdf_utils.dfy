/**
 * PDFProcessor (app/utils/pdf_utils.py): splitting a PDF into page images and
 * running a per-page processor over them with per-page failure isolation.
 *
 * The file system answers "does this path exist", the rasterizer is an outcome
 * value, `cancel_check_func` is an optional oracle giving the answer of its k-th
 * call, and `processor_func` is an oracle giving the result for page i.
 */
module PdfUtils {
  import opened Common

  /** An element of the rasterizer's list: a file path, or an in-memory image. */
  datatype Page = PathPage(path: string) | ImagePage

  /** What reading the PDF and `pdf2image.convert_from_bytes` do. */
  datatype Conversion = ConvertFailed(e: Exc) | Converted(pages: seq<Page>)

  /** Observable steps of split_pdf_to_images, in order. */
  datatype SplitEvent = MadeDirs(dir: string) | CheckedCancel | RanConverter | SavedPage(path: string)

  /** `cancel_check_func`: None, or the answer of its k-th call (k = 0, 1, ...). */
  type CancelCheck = Option<nat -> bool>

  predicate Asked(check: CancelCheck, k: nat)
  {
    check.Some? && check.value(k)
  }

  function CheckEvent(check: CancelCheck): seq<SplitEvent>
  {
    if check.Some? then [CheckedCancel] else []
  }

  // ================================================================ split_pdf_to_images

  /** `os.path.join(output_dir, f"page_{i+1}.{fmt}")`. */
  function PagePath(dir: string, fmt: string, i: nat): string
  {
    PathJoin(dir, "page_" + NatToString(i + 1) + "." + fmt)
  }

  function SplitCancelled(t: string): Exc
  {
    TaskCancelled(PdfUtilsCancel, "任务已取消，停止切分PDF: " + t)
  }

  function SaveCancelled(t: string): Exc
  {
    TaskCancelled(PdfUtilsCancel, "任务已取消，停止保存PDF图片: " + t)
  }

  /** The fallback save loop after its first k pages: still saving, or stopped by an exception. */
  datatype SaveState =
    | Saving(paths: seq<Page>, events: seq<SplitEvent>)
    | SaveStopped(e: Exc, events: seq<SplitEvent>)

  function SaveRun(pages: seq<Page>, dir: string, fmt: string, t: string, check: CancelCheck, k: nat): SaveState
    requires k <= |pages|
    decreases k
  {
    if k == 0 then Saving([], [])
    else match SaveRun(pages, dir, fmt, t, check, k - 1)
      case SaveStopped(e, ev) => SaveStopped(e, ev)
      case Saving(ps, ev) => SaveStep(pages, dir, fmt, t, check, k - 1, ps, ev)
  }

  /** One turn of the fallback loop, on page i, after saving `ps` with steps `ev`. */
  function SaveStep(pages: seq<Page>, dir: string, fmt: string, t: string, check: CancelCheck, i: nat,
                    ps: seq<Page>, ev: seq<SplitEvent>): SaveState
    requires i < |pages|
  {
    var checked := ev + CheckEvent(check);
    if Asked(check, i + 1) then SaveStopped(SaveCancelled(t), checked)
    else if pages[i].PathPage? then SaveStopped(AttributeError("'str' object has no attribute 'save'"), checked)
    else Saving(ps + [PathPage(PagePath(dir, fmt, i))], checked + [SavedPage(PagePath(dir, fmt, i))])
  }

  /** What the fallback loop returns or raises, and its steps. */
  function SaveOutcome(st: SaveState): (Outcome<seq<Page>>, seq<SplitEvent>)
  {
    match st
    case Saving(paths, ev) => (Returned(paths), ev)
    case SaveStopped(e, ev) => (Raised(e), ev)
  }

  /** split_pdf_to_images: the value it returns or the exception it raises, and its steps. */
  function SplitSpec(pdfPath: string, pdfExists: bool, outputDir: string, dirExists: bool, t: string,
                     fmt: string, check: CancelCheck, returnPaths: bool, conv: Conversion)
    : (Outcome<seq<Page>>, seq<SplitEvent>)
  {
    if !pdfExists then (Raised(FileNotFound("PDF文件不存在: " + pdfPath)), [])
    else
      var before := (if dirExists then [] else [MadeDirs(outputDir)]) + CheckEvent(check);
      if Asked(check, 0) then (Raised(SplitCancelled(t)), before)
      else
        var converted := before + [RanConverter];
        match conv
        case ConvertFailed(e) => (Raised(e), converted)
        case Converted(pages) =>
          if !returnPaths then (Returned(pages), converted)
          else if |pages| == 0 then (Raised(IndexError("list index out of range")), converted)
          else if pages[0].PathPage? then (Returned(pages), converted)
          else
            var saved := SaveOutcome(SaveRun(pages, outputDir, fmt, t, check, |pages|));
            (saved.0, converted + saved.1)
  }

  method SplitPdfToImages(pdfPath: string, pdfExists: bool, outputDir: string, dirExists: bool, t: string,
                          fmt: string, check: CancelCheck, returnPaths: bool, conv: Conversion)
    returns (r: Outcome<seq<Page>>, events: seq<SplitEvent>)
    ensures (r, events) == SplitSpec(pdfPath, pdfExists, outputDir, dirExists, t, fmt, check, returnPaths, conv)
  {
    events := [];
    if !pdfExists {
      return Raised(FileNotFound("PDF文件不存在: " + pdfPath)), events;
    }
    if !dirExists {
      events := events + [MadeDirs(outputDir)];
    }
    if check.Some? {
      events := events + [CheckedCancel];
      if check.value(0) {
        assert events == (if dirExists then [] else [MadeDirs(outputDir)]) + CheckEvent(check);
        return Raised(SplitCancelled(t)), events;
      }
    }
    events := events + [RanConverter];
    assert events == (if dirExists then [] else [MadeDirs(outputDir)]) + CheckEvent(check) + [RanConverter];
    if conv.ConvertFailed? {
      return Raised(conv.e), events;
    }
    var images := conv.pages;
    if returnPaths && |images| == 0 {
      return Raised(IndexError("list index out of range")), events;
    }
    if returnPaths && !images[0].PathPage? {
      var saved, savedEvents := SaveImages(images, outputDir, fmt, t, check);
      return saved, events + savedEvents;
    }
    return Returned(images), events;
  }

  /** The fallback loop of split_pdf_to_images: saves each in-memory image as page_{i+1}.{fmt}. */
  method SaveImages(images: seq<Page>, outputDir: string, fmt: string, t: string, check: CancelCheck)
    returns (r: Outcome<seq<Page>>, events: seq<SplitEvent>)
    ensures (r, events) == SaveOutcome(SaveRun(images, outputDir, fmt, t, check, |images|))
  {
    var imagePaths: seq<Page> := [];
    events := [];
    var i := 0;
    while i < |images|
      invariant 0 <= i <= |images|
      invariant SaveRun(images, outputDir, fmt, t, check, i) == Saving(imagePaths, events)
    {
      var st := SaveImage(images, outputDir, fmt, t, check, i, imagePaths, events);
      assert SaveRun(images, outputDir, fmt, t, check, i + 1) == st;
      if st.SaveStopped? {
        SaveStoppedPersists(images, outputDir, fmt, t, check, i + 1, |images|);
        return Raised(st.e), st.events;
      }
      imagePaths, events := st.paths, st.events;
      i := i + 1;
    }
    return Returned(imagePaths), events;
  }

  /** The body of the fallback loop for page i: ask about cancelling, then save the image. */
  method SaveImage(images: seq<Page>, outputDir: string, fmt: string, t: string, check: CancelCheck, i: nat,
                   imagePaths: seq<Page>, events: seq<SplitEvent>)
    returns (st: SaveState)
    requires i < |images|
    ensures st == SaveStep(images, outputDir, fmt, t, check, i, imagePaths, events)
  {
    var checked := events;
    if check.Some? {
      checked := checked + [CheckedCancel];
      if check.value(i + 1) {
        return SaveStopped(SaveCancelled(t), checked);
      }
    }
    if images[i].PathPage? {
      return SaveStopped(AttributeError("'str' object has no attribute 'save'"), checked);
    }
    var imagePath := PagePath(outputDir, fmt, i);
    return Saving(imagePaths + [PathPage(imagePath)], checked + [SavedPage(imagePath)]);
  }

  lemma {:induction false} SaveStoppedPersists(pages: seq<Page>, dir: string, fmt: string, t: string,
                                              check: CancelCheck, k: nat, n: nat)
    requires k <= n <= |pages|
    requires SaveRun(pages, dir, fmt, t, check, k).SaveStopped?
    ensures SaveRun(pages, dir, fmt, t, check, n) == SaveRun(pages, dir, fmt, t, check, k)
    decreases n - k
  {
    if k < n {
      SaveStoppedPersists(pages, dir, fmt, t, check, k + 1, n);
    }
  }

  /** The paths of the SavedPage steps, in order. */
  function SavedPaths(events: seq<SplitEvent>): seq<string>
  {
    if events == [] then []
    else (if events[0].SavedPage? then [events[0].path] else []) + SavedPaths(events[1..])
  }

  lemma {:induction false} SavedPathsAppend(a: seq<SplitEvent>, b: seq<SplitEvent>)
    ensures SavedPaths(a + b) == SavedPaths(a) + SavedPaths(b)
    decreases |a|
  {
    if a != [] {
      assert (a + b)[1..] == a[1..] + b;
      SavedPathsAppend(a[1..], b);
    } else {
      assert a + b == b;
    }
  }

  predicate AllImages(pages: seq<Page>)
  {
    forall i :: 0 <= i < |pages| ==> pages[i] == ImagePage
  }

  /** `page_1.{fmt}` .. `page_k.{fmt}` under dir. */
  function PagePaths(dir: string, fmt: string, k: nat): seq<string>
  {
    if k == 0 then [] else PagePaths(dir, fmt, k - 1) + [PagePath(dir, fmt, k - 1)]
  }

  function PathPages(dir: string, fmt: string, k: nat): (r: seq<Page>)
    ensures |r| == k
  {
    if k == 0 then [] else PathPages(dir, fmt, k - 1) + [PathPage(PagePath(dir, fmt, k - 1))]
  }

  /** With no cancellation, the first k pages are saved as page_1 .. page_k, in page order. */
  lemma {:induction false} SaveRunSavesInOrder(pages: seq<Page>, dir: string, fmt: string, t: string,
                                              check: CancelCheck, k: nat)
    requires k <= |pages| && AllImages(pages)
    requires forall j :: 1 <= j <= k ==> !Asked(check, j)
    ensures SaveRun(pages, dir, fmt, t, check, k).Saving?
    ensures SaveRun(pages, dir, fmt, t, check, k).paths == PathPages(dir, fmt, k)
    ensures SavedPaths(SaveRun(pages, dir, fmt, t, check, k).events) == PagePaths(dir, fmt, k)
    decreases k
  {
    if k > 0 {
      SaveRunSavesInOrder(pages, dir, fmt, t, check, k - 1);
      var prev := SaveRun(pages, dir, fmt, t, check, k - 1);
      var ev := prev.events + CheckEvent(check);
      var p := PagePath(dir, fmt, k - 1);
      var cur := SaveRun(pages, dir, fmt, t, check, k);
      assert cur == Saving(prev.paths + [PathPage(p)], ev + [SavedPage(p)]) by {
        assert !Asked(check, k);
        assert pages[k - 1] == ImagePage;
      }
      assert SavedPaths(cur.events) == PagePaths(dir, fmt, k) by {
        SavedPathsAppend(prev.events, CheckEvent(check));
        SavedPathsAppend(ev, [SavedPage(p)]);
        assert SavedPaths(CheckEvent(check)) == [];
        assert SavedPaths([SavedPage(p)]) == [p];
      }
      assert cur.paths == PathPages(dir, fmt, k);
    }
  }

  lemma {:induction false} PathPagesIndex(dir: string, fmt: string, k: nat, i: nat)
    requires i < k
    ensures |PathPages(dir, fmt, k)| == k
    ensures PathPages(dir, fmt, k)[i] == PathPage(PagePath(dir, fmt, i))
    decreases k
  {
    if i < k - 1 {
      PathPagesIndex(dir, fmt, k - 1, i);
    } else if k > 1 {
      PathPagesIndex(dir, fmt, k - 1, 0);
    }
  }

  /**
   * Without cancellation, the image fallback returns `output_dir/page_{i+1}.{fmt}`
   * as its i-th path, for every page, in page order.
   */
  lemma SplitNamesPagesInOrder(pdfPath: string, outputDir: string, dirExists: bool, t: string,
                               fmt: string, check: CancelCheck, pages: seq<Page>)
    requires |pages| > 0 && AllImages(pages)
    requires forall j :: 0 <= j <= |pages| ==> !Asked(check, j)
    ensures var r := SplitSpec(pdfPath, true, outputDir, dirExists, t, fmt, check, true, Converted(pages)).0;
      r.Returned? && |r.value| == |pages| &&
      forall i :: 0 <= i < |pages| ==> r.value[i] == PathPage(PagePath(outputDir, fmt, i))
  {
    SaveRunSavesInOrder(pages, outputDir, fmt, t, check, |pages|);
    forall i | 0 <= i < |pages|
      ensures PathPages(outputDir, fmt, |pages|)[i] == PathPage(PagePath(outputDir, fmt, i))
    {
      PathPagesIndex(outputDir, fmt, |pages|, i);
    }
  }

  /**
   * A cancellation seen before saving page k+1 aborts the fallback: the
   * pdf_utils TaskCancelledException is raised and exactly pages 1..k were saved.
   */
  lemma SplitCancelledWhileSaving(pdfPath: string, outputDir: string, dirExists: bool, t: string,
                                  fmt: string, check: CancelCheck, pages: seq<Page>, k: nat)
    requires AllImages(pages) && k < |pages|
    requires forall j :: 0 <= j <= k ==> !Asked(check, j)
    requires Asked(check, k + 1)
    ensures SplitSpec(pdfPath, true, outputDir, dirExists, t, fmt, check, true, Converted(pages)).0
         == Raised(SaveCancelled(t))
    ensures SavedPaths(SplitSpec(pdfPath, true, outputDir, dirExists, t, fmt, check, true, Converted(pages)).1)
         == PagePaths(outputDir, fmt, k)
  {
    SaveRunSavesInOrder(pages, outputDir, fmt, t, check, k);
    var prev := SaveRun(pages, outputDir, fmt, t, check, k);
    SaveStoppedPersists(pages, outputDir, fmt, t, check, k + 1, |pages|);
    var stopped := SaveRun(pages, outputDir, fmt, t, check, |pages|);
    assert stopped == SaveStopped(SaveCancelled(t), prev.events + CheckEvent(check));
    var before := (if dirExists then [] else [MadeDirs(outputDir)]) + CheckEvent(check) + [RanConverter];
    assert SavedPaths(before) == [] by {
      SavedPathsAppend((if dirExists then [] else [MadeDirs(outputDir)]) + CheckEvent(check), [RanConverter]);
      SavedPathsAppend(if dirExists then [] else [MadeDirs(outputDir)], CheckEvent(check));
    }
    SavedPathsAppend(before, stopped.events);
    SavedPathsAppend(prev.events, CheckEvent(check));
  }

  /** A missing PDF is reported before any directory is created or cancellation is checked. */
  lemma SplitMissingPdfFirst(pdfPath: string, outputDir: string, dirExists: bool, t: string, fmt: string,
                             check: CancelCheck, returnPaths: bool, conv: Conversion)
    ensures SplitSpec(pdfPath, false, outputDir, dirExists, t, fmt, check, returnPaths, conv)
         == (Raised(FileNotFound("PDF文件不存在: " + pdfPath)), [])
  {
  }

  /** A cancellation seen on the first check raises before the rasterizer runs. */
  lemma SplitCancelledBeforeConversion(pdfPath: string, outputDir: string, dirExists: bool, t: string,
                                       fmt: string, check: CancelCheck, returnPaths: bool, conv: Conversion)
    requires Asked(check, 0)
    ensures SplitSpec(pdfPath, true, outputDir, dirExists, t, fmt, check, returnPaths, conv).0 == Raised(SplitCancelled(t))
    ensures RanConverter !in SplitSpec(pdfPath, true, outputDir, dirExists, t, fmt, check, returnPaths, conv).1
  {
  }

  // ================================================================ process_pdf_images

  /** What `processor_func(image_path, task_id)` does for one page: returns text or raises. */
  datatype PageResult = PageText(text: string) | PageError(e: Exc)

  function SuccessSection(i: nat, text: string): string
  {
    "--- 第" + NatToString(i + 1) + "页 ---\n" + text
  }

  function FailureSection(i: nat): string
  {
    "--- 第" + NatToString(i + 1) + "页（处理失败）---"
  }

  /** The section page i contributes when the loop reaches it. */
  function Section(process: nat -> PageResult, i: nat): string
  {
    match process(i)
    case PageText(x) => SuccessSection(i, x)
    case PageError(_) => FailureSection(i)
  }

  /** The page loop after its first k pages: `all_text`, `failed_pages` and the processor's calls. */
  datatype ImagesState =
    | Running(sections: seq<string>, failed: seq<nat>, calls: seq<string>)
    | Halted(calls: seq<string>)

  function ImagesRun(paths: seq<string>, process: nat -> PageResult, check: CancelCheck, k: nat): ImagesState
    requires k <= |paths|
    decreases k
  {
    if k == 0 then Running([], [], [])
    else match ImagesRun(paths, process, check, k - 1)
      case Halted(c) => Halted(c)
      case Running(s, f, c) =>
        var i := k - 1;
        if Asked(check, i) then Halted(c)
        else Running(s + [Section(process, i)], f + (if process(i).PageError? then [i + 1] else []), c + [paths[i]])
  }

  /** The summary footer appended after the joined sections. */
  function Summary(total: nat, failed: seq<nat>): string
  {
    if |failed| > 0 then
      "\n\n--- 处理摘要 ---\n总页数: " + NatToString(total)
      + "\n成功页数: " + IntToString(total - |failed|)
      + "\n失败页数: " + NatToString(|failed|)
      + "\n失败页码: " + JoinNats(", ", failed)
    else
      "\n\n--- 处理摘要 ---\n总页数: " + NatToString(total) + "\n所有页面处理成功"
  }

  function ImagesCancelled(t: string): Exc
  {
    TaskCancelled(PdfUtilsCancel, "任务已取消，停止处理PDF图片: " + t)
  }

  /** process_pdf_images: its result or exception, and the paths handed to processor_func, in order. */
  function ProcessPdfImagesSpec(paths: seq<string>, t: string, process: nat -> PageResult, check: CancelCheck)
    : (Outcome<string>, seq<string>)
  {
    match ImagesRun(paths, process, check, |paths|)
    case Halted(c) => (Raised(ImagesCancelled(t)), c)
    case Running(s, f, c) => (Returned(Join("\n\n", s) + Summary(|paths|, f)), c)
  }

  method ProcessPdfImages(imagePaths: seq<string>, t: string, process: nat -> PageResult, check: CancelCheck)
    returns (r: Outcome<string>, calls: seq<string>)
    ensures (r, calls) == ProcessPdfImagesSpec(imagePaths, t, process, check)
  {
    var allText: seq<string> := [];
    var failedPages: seq<nat> := [];
    calls := [];
    var i := 0;
    while i < |imagePaths|
      invariant 0 <= i <= |imagePaths|
      invariant ImagesRun(imagePaths, process, check, i) == Running(allText, failedPages, calls)
    {
      if check.Some? && check.value(i) {
        assert ImagesRun(imagePaths, process, check, i + 1) == Halted(calls);
        HaltPersists(imagePaths, process, check, i + 1, |imagePaths|);
        return Raised(ImagesCancelled(t)), calls;
      }
      assert ImagesRun(imagePaths, process, check, i + 1)
          == Running(allText + [Section(process, i)], failedPages + (if process(i).PageError? then [i + 1] else []),
                     calls + [imagePaths[i]]);
      calls := calls + [imagePaths[i]];
      var result := process(i);
      if result.PageText? {
        allText := allText + [SuccessSection(i, result.text)];
      } else {
        failedPages := failedPages + [i + 1];
        allText := allText + [FailureSection(i)];
      }
      i := i + 1;
    }
    var combinedText := Join("\n\n", allText);
    return Returned(combinedText + Summary(|imagePaths|, failedPages)), calls;
  }

  lemma {:induction false} HaltPersists(paths: seq<string>, process: nat -> PageResult, check: CancelCheck, k: nat, n: nat)
    requires k <= n <= |paths|
    requires ImagesRun(paths, process, check, k).Halted?
    ensures ImagesRun(paths, process, check, n) == ImagesRun(paths, process, check, k)
    decreases n - k
  {
    if k < n {
      HaltPersists(paths, process, check, k + 1, n);
    }
  }

  /** The 1-based numbers of the failed pages among the first k, ascending. */
  function FailedPages(process: nat -> PageResult, k: nat): seq<nat>
  {
    if k == 0 then [] else FailedPages(process, k - 1) + (if process(k - 1).PageError? then [k] else [])
  }

  /** How many of the first k pages the processor succeeded on. */
  function SucceededPages(process: nat -> PageResult, k: nat): nat
  {
    if k == 0 then 0 else SucceededPages(process, k - 1) + (if process(k - 1).PageText? then 1 else 0)
  }

  /** The sections of pages 0 .. k-1: page i's section at index i. */
  function Sections(process: nat -> PageResult, k: nat): (r: seq<string>)
    ensures |r| == k
    ensures forall i :: 0 <= i < k ==> r[i] == Section(process, i)
  {
    if k == 0 then [] else Sections(process, k - 1) + [Section(process, k - 1)]
  }

  /** With no cancellation in the first k checks, the loop has one section per page and calls every page. */
  lemma {:induction false} ImagesRunUncancelled(paths: seq<string>, process: nat -> PageResult, check: CancelCheck, k: nat)
    requires k <= |paths|
    requires forall j :: 0 <= j < k ==> !Asked(check, j)
    ensures ImagesRun(paths, process, check, k) == Running(Sections(process, k), FailedPages(process, k), paths[..k])
    decreases k
  {
    if k > 0 {
      ImagesRunUncancelled(paths, process, check, k - 1);
      assert !Asked(check, k - 1);
      assert paths[..k] == paths[..k - 1] + [paths[k - 1]];
    }
  }

  /**
   * The failed-page ledger: strictly ascending, and page p (1-based) is in it
   * exactly when the processor raised on it.
   */
  lemma {:induction false} FailedPagesLedger(process: nat -> PageResult, k: nat)
    ensures forall a, b :: 0 <= a < b < |FailedPages(process, k)| ==> FailedPages(process, k)[a] < FailedPages(process, k)[b]
    ensures forall p :: p in FailedPages(process, k) <==> 1 <= p <= k && process(p - 1).PageError?
    ensures |FailedPages(process, k)| + SucceededPages(process, k) == k
    decreases k
  {
    if k > 0 {
      FailedPagesLedger(process, k - 1);
      var prev := FailedPages(process, k - 1);
      assert forall a :: 0 <= a < |prev| ==> prev[a] in prev;
    }
  }

  /**
   * Failure isolation: when no cancellation is seen, every page gets a section
   * in page order (its text, or the failure marker), every page is handed to the
   * processor once, and the footer reports the failed pages.
   */
  lemma ProcessPdfImagesIsolatesFailures(paths: seq<string>, t: string, process: nat -> PageResult, check: CancelCheck)
    requires forall j :: 0 <= j < |paths| ==> !Asked(check, j)
    ensures ProcessPdfImagesSpec(paths, t, process, check)
         == (Returned(Join("\n\n", Sections(process, |paths|))
                      + Summary(|paths|, FailedPages(process, |paths|))),
             paths)
  {
    assert ImagesRun(paths, process, check, |paths|) == Running(Sections(process, |paths|), FailedPages(process, |paths|), paths) by {
      ImagesRunUncancelled(paths, process, check, |paths|);
      assert paths[..|paths|] == paths;
    }
  }

  /**
   * Once the check answers true before page k, no page from k on reaches the
   * processor, and the pdf_utils TaskCancelledException is raised.
   */
  lemma ProcessPdfImagesStopsAtCancel(paths: seq<string>, t: string, process: nat -> PageResult, check: CancelCheck, k: nat)
    requires k < |paths|
    requires forall j :: 0 <= j < k ==> !Asked(check, j)
    requires Asked(check, k)
    ensures ProcessPdfImagesSpec(paths, t, process, check) == (Raised(ImagesCancelled(t)), paths[..k])
  {
    ImagesRunUncancelled(paths, process, check, k);
    HaltPersists(paths, process, check, k + 1, |paths|);
  }

  /** The footer's counts: total pages, succeeded = total - failed, failed pages listed. */
  lemma SummaryCounts(process: nat -> PageResult, n: nat)
    requires FailedPages(process, n) != []
    ensures Summary(n, FailedPages(process, n))
         == "\n\n--- 处理摘要 ---\n总页数: " + NatToString(n)
            + "\n成功页数: " + NatToString(SucceededPages(process, n))
            + "\n失败页数: " + NatToString(|FailedPages(process, n)|)
            + "\n失败页码: " + JoinNats(", ", FailedPages(process, n))
  {
    FailedPagesLedger(process, n);
  }

  /** A processor that reads "A", "B" and "C" off pages 1, 2 and 3. */
  function ReadsAbc(i: nat): PageResult
  {
    if i == 0 then PageText("A") else if i == 1 then PageText("B") else PageText("C")
  }

  /** Three pages "A", "B", "C", all succeeding: three marked sections, then the all-succeeded footer. */
  lemma ThreePagesAllSucceed(paths: seq<string>, t: string)
    requires |paths| == 3
    ensures ProcessPdfImagesSpec(paths, t, ReadsAbc, None).0
         == Returned("--- 第1页 ---\nA" + "\n\n" + "--- 第2页 ---\nB" + "\n\n" + "--- 第3页 ---\nC"
            + "\n\n--- 处理摘要 ---\n总页数: 3\n所有页面处理成功")
  {
    ProcessPdfImagesIsolatesFailures(paths, t, ReadsAbc, None);
    var s := Sections(ReadsAbc, 3);
    assert FailedPages(ReadsAbc, 3) == [];
    AbcSections(s);
    AbcReport(s[0], s[1], s[2]);
  }

  lemma AbcSections(s: seq<string>)
    requires s == Sections(ReadsAbc, 3)
    ensures s == ["--- 第1页 ---\nA", "--- 第2页 ---\nB", "--- 第3页 ---\nC"]
  {
    assert NatToString(1) == "1" && NatToString(2) == "2" && NatToString(3) == "3";
    assert s[0] == SuccessSection(0, "A") == "--- 第1页 ---\nA";
    assert s[1] == SuccessSection(1, "B") == "--- 第2页 ---\nB";
    assert s[2] == SuccessSection(2, "C") == "--- 第3页 ---\nC";
  }

  lemma AbcReport(a: string, b: string, c: string)
    requires a == "--- 第1页 ---\nA" && b == "--- 第2页 ---\nB" && c == "--- 第3页 ---\nC"
    ensures Join("\n\n", [a, b, c]) + Summary(3, [])
         == "--- 第1页 ---\nA" + "\n\n" + "--- 第2页 ---\nB" + "\n\n" + "--- 第3页 ---\nC"
            + "\n\n--- 处理摘要 ---\n总页数: 3\n所有页面处理成功"
  {
    assert [a, b, c][..2] == [a, b] && [a, b][..1] == [a];
    assert NatToString(3) == "3";
    var footer := "\n\n--- 处理摘要 ---\n总页数: 3\n所有页面处理成功";
    assert Summary(3, []) == footer;
    assert Join("\n\n", [a]) == a;
    assert Join("\n\n", [a, b]) == a + "\n\n" + b;
    assert Join("\n\n", [a, b, c]) == a + "\n\n" + b + "\n\n" + c;
  }
}
