/**
 * OCRService (app/services/ocr_service.py): local Tesseract recognition.
 *
 * `pytesseract.image_to_string` is an oracle `ocr(i)` giving the text of page i
 * (or what it raises); for a single image it is `ocr(0)`. The rasterizer is an
 * outcome value. Call counts stand for the engine invocations a test can observe.
 */
module OcrService {
  import opened Common

  /** What `pdf2image.convert_from_path` does: the page count or an exception. */
  datatype Rasterized = RasterFailed(e: Exc) | RasterPages(count: nat)

  /** process_image: the engine's text, unchanged, from one engine call. */
  method ProcessImage(ocr: nat -> Outcome<string>) returns (r: Outcome<string>, calls: nat)
    ensures r == ocr(0) && calls == 1
  {
    var text := ocr(0);
    calls := 1;
    return text, calls;
  }

  /** The page loop after k pages: the texts so far, or the first engine error and the calls made. */
  datatype PdfState = Reading(texts: seq<string>) | Failed(e: Exc, calls: nat)

  function PdfRun(ocr: nat -> Outcome<string>, k: nat): PdfState
    decreases k
  {
    if k == 0 then Reading([])
    else match PdfRun(ocr, k - 1)
      case Failed(e, c) => Failed(e, c)
      case Reading(s) =>
        match ocr(k - 1)
        case Raised(e) => Failed(e, k)
        case Returned(x) => Reading(s + [x])
  }

  /** process_pdf: its result or exception, and the number of engine calls. */
  function ProcessPdfSpec(raster: Rasterized, ocr: nat -> Outcome<string>): (Outcome<string>, nat)
  {
    match raster
    case RasterFailed(e) => (Raised(e), 0)
    case RasterPages(n) =>
      match PdfRun(ocr, n)
      case Failed(e, c) => (Raised(e), c)
      case Reading(s) => (Returned(Join("\n\n", s)), n)
  }

  method ProcessPdf(raster: Rasterized, ocr: nat -> Outcome<string>) returns (r: Outcome<string>, calls: nat)
    ensures (r, calls) == ProcessPdfSpec(raster, ocr)
  {
    if raster.RasterFailed? {
      return Raised(raster.e), 0;
    }
    var allText: seq<string> := [];
    calls := 0;
    var i := 0;
    while i < raster.count
      invariant 0 <= i <= raster.count && calls == i
      invariant PdfRun(ocr, i) == Reading(allText)
    {
      var text := ocr(i);
      calls := calls + 1;
      if text.Raised? {
        FailedPersists(ocr, i + 1, raster.count);
        return Raised(text.exc), calls;
      }
      allText := allText + [text.value];
      i := i + 1;
    }
    return Returned(Join("\n\n", allText)), calls;
  }

  lemma {:induction false} FailedPersists(ocr: nat -> Outcome<string>, k: nat, n: nat)
    requires k <= n && PdfRun(ocr, k).Failed?
    ensures PdfRun(ocr, n) == PdfRun(ocr, k)
    decreases n - k
  {
    if k < n {
      FailedPersists(ocr, k + 1, n);
    }
  }

  /** The texts of pages 0 .. k-1 when every call succeeds. */
  function Texts(ocr: nat -> Outcome<string>, k: nat): (r: seq<string>)
    requires forall i :: 0 <= i < k ==> ocr(i).Returned?
    ensures |r| == k
  {
    if k == 0 then [] else Texts(ocr, k - 1) + [ocr(k - 1).value]
  }

  lemma {:induction false} PdfRunAllRead(ocr: nat -> Outcome<string>, k: nat)
    requires forall i :: 0 <= i < k ==> ocr(i).Returned?
    ensures PdfRun(ocr, k) == Reading(Texts(ocr, k))
    decreases k
  {
    if k > 0 {
      PdfRunAllRead(ocr, k - 1);
    }
  }

  /** When every page is read, the result is the page texts in page order joined by a blank line, one call per page. */
  lemma PdfJoinsPages(n: nat, ocr: nat -> Outcome<string>)
    requires forall i :: 0 <= i < n ==> ocr(i).Returned?
    ensures ProcessPdfSpec(RasterPages(n), ocr) == (Returned(Join("\n\n", Texts(ocr, n))), n)
  {
    PdfRunAllRead(ocr, n);
  }

  /** The first page the engine fails on aborts the document with that error, after k+1 calls. */
  lemma PdfFirstErrorAborts(n: nat, k: nat, ocr: nat -> Outcome<string>)
    requires k < n && ocr(k).Raised?
    requires forall i :: 0 <= i < k ==> ocr(i).Returned?
    ensures ProcessPdfSpec(RasterPages(n), ocr) == (Raised(ocr(k).exc), k + 1)
  {
    PdfRunAllRead(ocr, k);
    FailedPersists(ocr, k + 1, n);
  }

  /** A two-page document whose pages both read "测试文本" gives the two texts joined by a blank line, from two calls. */
  lemma TwoPageDocument()
    ensures ProcessPdfSpec(RasterPages(2), _ => Returned("测试文本")) == (Returned("测试文本" + "\n\n" + "测试文本"), 2)
  {
    var ocr: nat -> Outcome<string> := _ => Returned("测试文本");
    PdfJoinsPages(2, ocr);
    assert Texts(ocr, 2) == ["测试文本", "测试文本"];
    assert Texts(ocr, 2)[..1] == ["测试文本"];
  }

  // ================================================================ process_file

  /** The extensions process_file sends to process_image (no ".tif"). */
  const ImageExtensions: seq<string> := [".png", ".jpg", ".jpeg", ".tiff", ".bmp", ".gif"]

  function ProcessFileSpec(path: string, raster: Rasterized, ocr: nat -> Outcome<string>): (Outcome<string>, nat)
  {
    var ext := Ext(path);
    if ext == ".pdf" then ProcessPdfSpec(raster, ocr)
    else if ext in ImageExtensions then (ocr(0), 1)
    else (Raised(ValueError("不支持的文件类型: " + ext)), 0)
  }

  method ProcessFile(path: string, raster: Rasterized, ocr: nat -> Outcome<string>) returns (r: Outcome<string>, calls: nat)
    ensures (r, calls) == ProcessFileSpec(path, raster, ocr)
  {
    var (_, ext0) := SplitExt(path);
    var ext := Lower(ext0);
    if ext == ".pdf" {
      r, calls := ProcessPdf(raster, ocr);
    } else if ext in ImageExtensions {
      r, calls := ProcessImage(ocr);
    } else {
      var errorMsg := "不支持的文件类型: " + ext;
      r, calls := Raised(ValueError(errorMsg)), 0;
    }
  }

  /** ".tif" is not on this service's list, so a TIF is rejected without calling the engine. */
  lemma TifRejected(base: string, raster: Rasterized, ocr: nat -> Outcome<string>)
    requires base != "" && '.' !in base && '/' !in base
    ensures ProcessFileSpec(base + ".tif", raster, ocr) == (Raised(ValueError("不支持的文件类型: .tif")), 0)
  {
    assert Ext(base + ".tif") == ".tif" by {
      ExtOfName(base, ".tif");
      assert Lower(".tif") == ".tif";
    }
    assert ".tif" != ".pdf" && ".tif" !in ImageExtensions;
    assert "不支持的文件类型: " + ".tif" == "不支持的文件类型: .tif";
  }
}
