# py-ocr document text recognition service: a Dafny model

py-ocr is a Flask and Celery service that turns uploaded PDFs and images into
text. `POST /upload` stores the file, records the task as `processing` in a
SQLite table and enqueues a background job. A job sends the file to one of three
recognition services:

- local Tesseract (`OCRService`);
- a multimodal chat-completions API (`LLMService`);
- a local Ollama vision model (`OllamaOCRIntegration`, which has its own
  `split_pdf_to_images`).

`PDFProcessor` (app/utils/pdf_utils.py) is a helper module with its own
page-splitting and page-processing loops. No service or job calls it, so its
`TaskCancelledException` (`PdfUtilsCancel` in the model) never reaches a job.
The model covers it on its own terms.

The job then uploads the text to object storage, records `completed` with the
object URL or `failed` with an error message, and retries through Celery.
`GET /status/<task_id>` reports what the table holds.
The LLM and Ollama services can be cancelled: each keeps a registry of running
tasks with a cancel-requested flag, and checks that flag before each step.

The model has one module per source file:

| module | file | form |
|---|---|---|
| `Common` | shared | exceptions as values, the return-or-raise outcome of a Python call, `str(int)`, `str.join`, `str.lower`, `os.path.splitext`, `os.path.join` |
| `Registry` | `_processing_tasks` in both cancellable services | class `TaskRegistry` whose map field the four methods update |
| `PdfUtils` | app/utils/pdf_utils.py | methods with loops, each proved equal to a prefix ("run") function |
| `LlmService` | app/services/llm_service.py | the retry decorator and the page loop as methods; response parsing as functions |
| `OllamaService` | app/services/ollama_ocr_service.py | methods with loops over the registry |
| `OcrService` | app/services/ocr_service.py | methods with loops |
| `TaskStore` | app/models/task.py | class `TaskTable` whose `rows` map field stands for the SQLite table |
| `Routes` | app/api/routes.py | the two handlers as methods over a `TaskTable` |
| `Jobs`, `OcrTask`, `LlmTask`, `OllamaTask` | app/tasks/*.py | each job is a method that writes to a `TaskTable` and returns its trace of effects |

How the outside world appears in the model:

- An oracle is a function parameter that gives the answer of its k-th call.
  Oracles stand for the HTTP backends, Tesseract, the rasterizer and
  `cancel_check_func`.
- The file system answers "does this path exist" as a boolean parameter.
- A concurrent `cancel_task` from another thread is a number `cancelAt`. The
  request lands just before the job's `cancelAt`-th query of `_is_task_cancelled`
  (`Registry.Checkpoint`).
- `uuid.uuid4()` is the parameter `newId`. werkzeug's `secure_filename` is a
  function parameter. `CURRENT_TIMESTAMP` is a number `now`.
- A job executor takes as parameters what the service's `process_file` returned
  or raised and what `upload_text` returned or raised. The service modules
  compute the first.
- Each job records its steps as an ordered trace of effects: status writes,
  calls of `upload_text` (recorded whether or not the upload then raised), retry
  requests and removal of the input file.
  `Jobs.Replay` shows how the writes land in the table, and `Routes.StatusResponse`
  shows what polling then reports.
- Celery's `self.retry(exc=e, countdown=c)` re-sends the job and raises
  `Retry(c, e)`. Its text is "Retry in {c}s: {repr(e)}".

What the jobs do, as written:

- The LLM job nests its handlers. A recognition or upload failure with retries
  left asks for two re-deliveries. The inner handler asks for the first. Its
  `Retry` reaches the outer `except Exception`, which records FAILED with the
  Retry's text and asks for the second.
- `TaskStatus` has no `CANCELLED` member. In the LLM job, a cancellation that
  reaches the cancellation handler fails at `TaskStatus.CANCELLED` with
  AttributeError: nothing is written and the input is not removed. In the Ollama
  job the same AttributeError is caught by the outer handler and recorded as
  FAILED.
- The Ollama job never raises. The `Retry` it requests is caught and recorded as
  FAILED, and `finally` removes the input. The re-delivery then finds no input.
- The docstring of `_is_task_cancelled` (app/services/llm_service.py:50) says a
  task that is not registered counts as cancelled. The code returns False for it.
  The model follows the code.
- `save_task_status` has no guard on status transitions. A later write overwrites
  a terminal status.

## Model

| member | source | states |
|---|---|---|
| Common.NatToString | app/utils/pdf_utils.py:164-169 | `str(n)` is a non-empty run of decimal digits, with two or more digits exactly when n >= 10 |
| Common.ParseNatToString | app/utils/pdf_utils.py:164-169 | reading the printed page count back gives the number: `str(n)` loses nothing |
| Common.NatToStringInjective | app/utils/pdf_utils.py:150-158 | distinct page numbers print differently, so different pages' markers differ |
| Common.RFind | app/api/routes.py:13-14 | the last index of the character, with no later occurrence; -1 when absent |
| Common.SplitExtParts | app/services/ocr_service.py:68-69 | `os.path.splitext`: root + ext is the path, and ext is empty or a dot followed by neither dot nor slash |
| Common.SplitExtOfName | app/services/ocr_service.py:68-69 | a plain "base.ext" splits at its one dot |
| Common.ExtOfName | app/services/ocr_service.py:68-69 | the dispatch extension of "base.ext" is ".ext" lower-cased, for a base without dot or slash |
| Registry.Started | app/services/llm_service.py:76-85 | `start_task` registers t as not cancelled, adding only t and leaving other entries as they were |
| Registry.CancelRequested | app/services/llm_service.py:58-74 | `cancel_task` sets the flag of a registered t, leaves the other entries alone, and changes nothing for an unknown t |
| Registry.Finished | app/services/llm_service.py:87-97 | `finish_task` removes t and keeps every other entry |
| Registry.TaskRegistry.constructor | app/services/llm_service.py:25-28 | the registry starts empty |
| Registry.TaskRegistry.StartTask | app/services/llm_service.py:76-85 | the registry becomes `Started` of the old one |
| Registry.TaskRegistry.CancelTask | app/services/llm_service.py:58-74 | returns True exactly when t was registered, and flags it |
| Registry.TaskRegistry.IsTaskCancelled | app/services/llm_service.py:42-56 | True exactly when t is registered and flagged; an unregistered task reads as not cancelled |
| Registry.TaskRegistry.FinishTask | app/services/llm_service.py:87-97 | the registry becomes `Finished` of the old one |
| Registry.FlagMeansCancelRequested | app/services/llm_service.py:42-97 | after `start_task(t)`, the flag reads true exactly when a `cancel_task(t)` has arrived since, whatever other tasks do |
| Registry.FlagStaysOnceSet | app/services/llm_service.py:58-74 | a set flag stays set while t stays registered |
| Registry.OthersUntouched | app/services/llm_service.py:58-97 | calls about t leave every other task's entry as it was |
| Registry.BracketedJobLeavesNoTrace | app/services/llm_service.py:337-357 | start, any cancels for t, then finish: the registry is the old one without t |
| Registry.ApplyAppend | app/services/llm_service.py:42-97 | running two call sequences one after the other is running their concatenation |
| Registry.FinishUndoesStart | app/services/llm_service.py:76-97 | finishing a task that was started, with or without a cancel since, gives the registry from before the start, without t |
| Registry.Checkpoint | app/services/llm_service.py:42-56 | query k lands the concurrent cancel when due, then answers whether the cancel landed at or before it |
| PdfUtils.SplitPdfToImages | app/utils/pdf_utils.py:15-117 | returns, raises and performs exactly the steps of the split specification |
| PdfUtils.SaveImages | app/utils/pdf_utils.py:95-110 | the fallback save loop ends in the run function's state after all pages |
| PdfUtils.SaveImage | app/utils/pdf_utils.py:97-108 | one turn of the save loop: the check, then either a stop or page_{i+1} added to the paths and the steps |
| PdfUtils.SaveStoppedPersists | app/utils/pdf_utils.py:97-102 | once the save loop has stopped, later pages change nothing |
| PdfUtils.SavedPathsAppend | app/utils/pdf_utils.py:95-110 | the saved paths of two step sequences are the paths of each, in order |
| PdfUtils.SaveRunSavesInOrder | app/utils/pdf_utils.py:95-110 | with no cancellation, pages 1..k are saved as `page_1..page_k`, in page order |
| PdfUtils.PathPagesIndex | app/utils/pdf_utils.py:105-108 | the i-th returned path is `output_dir/page_{i+1}.{fmt}` |
| PdfUtils.SplitNamesPagesInOrder | app/utils/pdf_utils.py:95-113 | with no cancellation, the image fallback returns one path per page, named by page number, in page order |
| PdfUtils.SplitCancelledWhileSaving | app/utils/pdf_utils.py:97-102 | a cancellation seen before page k+1 raises the pdf_utils cancellation, with exactly pages 1..k saved |
| PdfUtils.SplitMissingPdfFirst | app/utils/pdf_utils.py:46-49 | a missing PDF raises FileNotFoundError before any directory is created or any check is made |
| PdfUtils.SplitCancelledBeforeConversion | app/utils/pdf_utils.py:57-60 | a cancellation seen on the first check raises before the rasterizer runs |
| PdfUtils.ProcessPdfImages | app/utils/pdf_utils.py:120-172 | returns or raises what the page-loop specification says, and passes the processor exactly the paths it names |
| PdfUtils.HaltPersists | app/utils/pdf_utils.py:143-148 | once the loop has halted on a cancellation, later pages change nothing |
| PdfUtils.ImagesRunUncancelled | app/utils/pdf_utils.py:143-158 | with no cancellation, the loop has one section per page and hands every page to the processor |
| PdfUtils.Sections | app/utils/pdf_utils.py:150-158 | one section per page, the i-th being page i's section |
| PdfUtils.FailedPagesLedger | app/utils/pdf_utils.py:150-158 | the failed-page list is strictly ascending, holds page p exactly when the processor raised on it, and with the successes counts every page |
| PdfUtils.ProcessPdfImagesIsolatesFailures | app/utils/pdf_utils.py:143-169 | a failing page adds a failure section and the rest still run: every section in page order, then the summary footer |
| PdfUtils.ProcessPdfImagesStopsAtCancel | app/utils/pdf_utils.py:143-148 | a cancellation seen before page k raises, and no page from k on reaches the processor |
| PdfUtils.SummaryCounts | app/utils/pdf_utils.py:163-169 | the footer gives total pages, succeeded = total - failed, and the failed page numbers |
| PdfUtils.ThreePagesAllSucceed | app/utils/pdf_utils.py:150-169 | three successful pages give three marked sections and the all-succeeded footer |
| PdfUtils.AbcSections | app/utils/pdf_utils.py:150-153 | the section markers are `--- 第{i+1}页 ---` |
| PdfUtils.AbcReport | app/utils/pdf_utils.py:161-169 | the sections are joined by a blank line before the footer |
| LlmService.Get | app/services/llm_service.py:188 | `dict.get` gives the value or the default; anything other than a dict raises AttributeError |
| LlmService.First | app/services/llm_service.py:188 | `[0]` succeeds exactly on a non-empty list or string |
| LlmService.ExtractText | app/services/llm_service.py:164-199 | extraction never fails and never gives empty text: the content, the no-text placeholder, or the failure message |
| LlmService.ExtractChatResponse | app/services/llm_service.py:186-194 | round trip: the text in a well-formed reply is the text extracted, and an empty text becomes the placeholder |
| LlmService.ExtractWithoutChoices | app/services/llm_service.py:188-192 | a reply without "choices" reads as no text found |
| LlmService.ExtractEmptyChoices | app/services/llm_service.py:188-199 | an empty "choices" list raises IndexError, reported as an extraction failure |
| LlmService.ExtractFromNonObject | app/services/llm_service.py:196-199 | a reply that is not an object fails on its first `.get` |
| LlmService.Attempts | app/services/llm_service.py:99 | the decorated call makes between one and three attempts |
| LlmService.CallLlmApi | app/services/llm_service.py:99-162 | the decorator's loop gives the reference result: the first successful attempt wins, and the last error is re-raised |
| LlmService.RetrySchedule | app/services/llm_service.py:99 | at most three attempts, sleeping 2 s and then 4 s between them |
| LlmService.RetryRecoversOnThirdAttempt | app/services/llm_service.py:99 | two failures then a success return the third reply |
| LlmService.RetryGivesUpAfterThree | app/services/llm_service.py:99 | three failures raise the third error |
| LlmService.ProcessImage | app/services/llm_service.py:201-245 | `process_image` matches its specification, having made exactly one registry query |
| LlmService.ImageCancelledFirst | app/services/llm_service.py:216-218 | a cancellation seen first raises before the file is looked at |
| LlmService.ImageReturnsReplyText | app/services/llm_service.py:221-237 | a well-formed reply with text is returned as that text |
| LlmService.ProcessPdf | app/services/llm_service.py:247-324 | `process_pdf` matches its specification; the only registry change is the concurrent cancel |
| LlmService.ProcessPages | app/services/llm_service.py:290-310 | the page loop ends in the run function's state after all pages, and the only registry change is the concurrent cancel |
| LlmService.ProcessPage | app/services/llm_service.py:292-310 | one turn of the page loop: the cancellation query, then the API call and the page's section, in step with the run function |
| LlmService.PdfStoppedPersists | app/services/llm_service.py:290-296 | once the page loop has stopped, later pages change nothing |
| LlmService.Sections | app/services/llm_service.py:307-310 | one section per page |
| LlmService.PdfRunUndisturbed | app/services/llm_service.py:290-310 | with no cancellation and no failed call, the loop holds every page's section in page order |
| LlmService.PdfJoinsAllPages | app/services/llm_service.py:287-316 | the result is the sections of all pages joined with newlines |
| LlmService.PdfPageErrorAborts | app/services/llm_service.py:290-324 | a page whose call fails after all attempts aborts the whole document with that error |
| LlmService.PdfCancelledBeforePage | app/services/llm_service.py:294-296 | a cancellation seen before page k aborts the document |
| LlmService.ProcessFile | app/services/llm_service.py:326-357 | dispatches on the lower-cased extension and unregisters the task on every exit |
| LlmService.StartedJobSeesCancel | app/services/llm_service.py:337 | once registered, a query sees the cancel exactly when it comes at or after the cancel lands |
| LlmService.UpperCasePdfIsPdf | app/services/llm_service.py:341-346 | the extension test ignores case: "<base>.PDF" and "<base>.pdf" both take the PDF path |
| LlmService.DotFileHasNoExtension | app/services/llm_service.py:341-350 | a file named ".pdf" has no extension and is rejected |
| LlmService.CancelledBeforeStart | app/services/llm_service.py:337-350 | a cancel that lands before the first query aborts every supported file |
| OllamaService.ReplyOutcome | app/services/ollama_ocr_service.py:126-138 | status 200 gives the "response" field or ""; another status raises with the status and body; a failure to read or post propagates |
| OllamaService.ProcessImage | app/services/ollama_ocr_service.py:90-144 | `process_image` matches its specification with one registry query |
| OllamaService.ImageCancelledBeforeRequest | app/services/ollama_ocr_service.py:104-106 | a flagged task raises before the image is read or sent, whatever the reply would be |
| OllamaService.LastSaved | app/services/ollama_ocr_service.py:165-173 | the number of pages saved before the loop stopped |
| OllamaService.SplitPdfToImages | app/services/ollama_ocr_service.py:146-183 | the split matches its specification; a returned list means one query per page plus one |
| OllamaService.SplitStoppedPersists | app/services/ollama_ocr_service.py:165-169 | once the save loop has stopped, later pages change nothing |
| OllamaService.LastSavedIsStop | app/services/ollama_ocr_service.py:165-169 | when the loop stops at page i, exactly the pages before i were saved |
| OllamaService.PagePaths | app/services/ollama_ocr_service.py:171 | one path per page |
| OllamaService.PagePathsIndex | app/services/ollama_ocr_service.py:171 | the i-th path is `page_{i+1}.png` in the task's directory |
| OllamaService.SplitRunQuiet | app/services/ollama_ocr_service.py:165-173 | with no cancellation, the first k pages are saved in order |
| OllamaService.SplitNamesPagesInOrder | app/services/ollama_ocr_service.py:157-177 | with no cancellation, the split returns one path per page, named by page number, in page order |
| OllamaService.SplitCancelledFirst | app/services/ollama_ocr_service.py:151-153 | a cancellation seen first raises before the directory is made or the rasterizer runs |
| OllamaService.ProcessPdf | app/services/ollama_ocr_service.py:185-237 | `process_pdf` matches its specification, and its file-system steps too |
| OllamaService.ProcessPages | app/services/ollama_ocr_service.py:196-212 | the page loop ends in the run function's state |
| OllamaService.ProcessPage | app/services/ollama_ocr_service.py:198-212 | one turn of the page loop: the cancellation query, then `process_image` and the page's section, in step with the run function |
| OllamaService.RemoveTemporaries | app/services/ollama_ocr_service.py:215-229 | removes each page image, then the task directory |
| OllamaService.LoopStoppedPersists | app/services/ollama_ocr_service.py:196-200 | once the page loop has stopped, later pages change nothing |
| OllamaService.Sections | app/services/ollama_ocr_service.py:202-212 | one section per page |
| OllamaService.LoopRunQuiet | app/services/ollama_ocr_service.py:196-212 | with no cancellation, the loop holds every page's section in page order |
| OllamaService.QuietPage | app/services/ollama_ocr_service.py:198-212 | a page whose two queries see no cancellation and whose reply is not a cancellation adds its section |
| OllamaService.PdfIsolatesPageFailures | app/services/ollama_ocr_service.py:196-231 | every page contributes its text or a failure marker, in page order, and the temporary files are removed |
| OllamaService.PdfCancelInsidePageAborts | app/services/ollama_ocr_service.py:196-237 | a cancellation seen inside page k fails the PDF, and no temporary file is removed |
| OllamaService.QuietSplit | app/services/ollama_ocr_service.py:146-177 | with no cancellation, the split makes the directory, saves the images and returns every page's path |
| OllamaService.LoopCancelledInside | app/services/ollama_ocr_service.py:196-212 | a cancellation seen by page k's `process_image` query stops the page loop with it, whatever pages follow |
| OllamaService.CancelInsidePage | app/services/ollama_ocr_service.py:198-208 | a page whose first query passes and whose `process_image` query sees the cancellation stops the loop |
| OllamaService.SavesOnly | app/services/ollama_ocr_service.py:165-173 | the save loop's only file-system steps are saved images |
| OllamaService.ProcessFile | app/services/ollama_ocr_service.py:239-274 | dispatches on the lower-cased extension and unregisters the task on every exit |
| OllamaService.GifRejected | app/services/ollama_ocr_service.py:255-262 | ".gif" is not on this service's list: "<base>.gif" is rejected as unsupported |
| OcrService.ProcessImage | app/services/ocr_service.py:22-32 | the engine's text, unchanged, from one call |
| OcrService.ProcessPdf | app/services/ocr_service.py:34-55 | `process_pdf` matches its specification, counting engine calls |
| OcrService.FailedPersists | app/services/ocr_service.py:44-55 | once a page has failed, later pages change nothing |
| OcrService.Texts | app/services/ocr_service.py:44-49 | one text per page |
| OcrService.PdfRunAllRead | app/services/ocr_service.py:44-49 | when every call succeeds, the loop holds the texts in page order |
| OcrService.PdfJoinsPages | app/services/ocr_service.py:44-52 | the result is the page texts joined by a blank line, from one call per page |
| OcrService.PdfFirstErrorAborts | app/services/ocr_service.py:44-55 | the first failing page aborts the document with its error after k+1 calls |
| OcrService.TwoPageDocument | tests/test_ocr_service.py:46-63 | two pages reading "测试文本" give the two texts joined by a blank line, from two calls |
| OcrService.ProcessFile | app/services/ocr_service.py:57-79 | dispatches on the lower-cased extension |
| OcrService.TifRejected | app/services/ocr_service.py:68-79 | ".tif" is not on this service's list and is rejected without calling the engine |
| TaskStore.Member | app/models/task.py:7-10 | `TaskStatus.NAME` gives the member whose value is the lower-cased name, or raises AttributeError |
| TaskStore.MembersAreExactlyThree | app/models/task.py:7-10 | exactly PROCESSING, COMPLETED and FAILED are members; CANCELLED raises |
| TaskStore.Lookup | app/models/task.py:65-88 | a record exactly for a stored ID, with that row's fields |
| TaskStore.TaskTable.constructor | app/models/task.py:24-32 | the table starts empty |
| TaskStore.TaskTable.SaveTaskStatus | app/models/task.py:37-63 | update when the ID exists, insert otherwise |
| TaskStore.TaskTable.GetTaskStatus | app/models/task.py:65-88 | returns the stored row's record, or None |
| TaskStore.GetAfterSave | app/models/task.py:37-88 | reading an ID after saving it gives the saved status, URL and error; created_at is kept from the first insert |
| TaskStore.SaveLeavesOthers | app/models/task.py:49-60 | saving one ID leaves what every other ID reads unchanged |
| TaskStore.SaveRowCount | app/models/task.py:45-60 | a new ID adds exactly one row; an existing ID adds none |
| TaskStore.NoTransitionGuard | app/models/task.py:49-54 | "completed" then "processing" reads back as processing with no URL |
| TaskStore.UnknownIdIsNone | app/models/task.py:79-88 | an ID that was never saved reads as None |
| Routes.AfterLastDot | app/api/routes.py:13-14 | the text after the last dot contains no dot |
| Routes.AllowedFileIff | app/api/routes.py:11-14 | allowed exactly when some dot is followed by a dot-free suffix that is allowed once lower-cased |
| Routes.DefaultExtensionExamples | app/config/config.py:17 | "scan.TIFF" is allowed; "scan.tif" and "README" are not |
| Routes.UploadSpec | app/api/routes.py:16-47 | 200 exactly for a named file part with an allowed name; otherwise 400 with an error and no effects; on 200 the body is just the task ID |
| Routes.UploadFile | app/api/routes.py:16-47 | matches the upload specification; an accepted upload adds a processing row for the new ID; a refused one leaves the table unchanged |
| Routes.UploadEffectOrder | app/api/routes.py:34-47 | save the file, record processing, then enqueue, all with the same ID and stored path |
| Routes.UploadRefusals | app/api/routes.py:19-31 | the three refusals, each with its own message |
| Routes.StatusResponse | app/api/routes.py:49-64 | 404 exactly for an unknown ID; otherwise the status, the URL exactly when completed, and the error exactly when failed |
| Routes.GetStatus | app/api/routes.py:49-64 | the response is the status response of the stored record |
| Routes.UploadThenPoll | app/api/routes.py:42-62 | polling right after an accepted upload reports only "processing" |
| Routes.SavedOutcomeIsReported | app/api/routes.py:57-62 | a completed task reports its URL; a failed one reports its error |
| Jobs.Removal | app/tasks/ocr_task.py:36-41 | the input is removed exactly when it exists |
| Jobs.Record | app/models/task.py:37-63 | each effect is appended to the trace, and the table is the replay of the trace |
| Jobs.ReplayWithoutWrites | app/models/task.py:37-63 | a run without status writes leaves the table as it was |
| Jobs.ReplayLastWrite | app/models/task.py:37-88 | after a run, the task reads back the last status, URL and error written |
| Jobs.PollCompleted | app/api/routes.py:49-64 | when the last status write of a run is completed, polling reports completed with its URL |
| Jobs.PollFailed | app/api/routes.py:49-64 | when the last status write of a run is failed, polling reports failed with its error |
| OcrTask.ProcessOcr | app/tasks/ocr_task.py:11-64 | the job matches its specification, and the table is the replay of its effects |
| OcrTask.HandleFailure | app/tasks/ocr_task.py:44-64 | the `except` branch: FAILED with str(e), then a retry while retries remain, or removal of the input and re-raise |
| OcrTask.FailureReached | app/tasks/ocr_task.py:22-64 | a recognition or upload failure reaches the `except` branch with only the upload before it, if any |
| OcrTask.OcrSuccess | app/tasks/ocr_task.py:22-43 | the text goes to "<task_id>.txt", the URL is returned, polling shows completed with it, and the input is removed exactly when it exists |
| OcrTask.OcrFailureRetries | app/tasks/ocr_task.py:44-53 | with retries left: FAILED with str(e), then a retry after 60*(retries+1) s, Retry raised, input kept |
| OcrTask.OcrFailureExhausted | app/tasks/ocr_task.py:44-64 | with retries exhausted: FAILED, the input removed when present, e re-raised, no retry |
| OcrTask.OcrFailurePoll | app/tasks/ocr_task.py:44-53 | after any failure, polling shows failed with str(e), whether or not a retry was requested |
| LlmTask.ProcessLlm | app/tasks/llm_task.py:12-99 | the job matches its specification, and the table is the replay of its effects |
| LlmTask.HandleInner | app/tasks/llm_task.py:34-66 | the inner handlers: a retry request while retries remain, whose Retry then reaches the outer handler; otherwise the error goes there unchanged |
| LlmTask.HandleOuter | app/tasks/llm_task.py:68-99 | the outer handlers: a cancellation fails at `TaskStatus.CANCELLED`; any other error is written FAILED, then retried or the input removed, and re-raised |
| LlmTask.LlmMissingInput | app/tasks/llm_task.py:23-99 | a missing input is written FAILED twice with the same message and still retried while retries remain |
| LlmTask.LlmSuccess | app/tasks/llm_task.py:41-59 | the text goes to "llm_<task_id>.txt", polling shows completed with the URL, and the input is removed |
| LlmTask.LlmFailureRetriesTwice | app/tasks/llm_task.py:32-89 | with retries left, a recognition failure asks for two retries and records the first Retry's text as the error |
| LlmTask.LlmCancelAfterLastRetry | app/tasks/llm_task.py:68-80 | after the last retry, a cancellation raises AttributeError at `TaskStatus.CANCELLED`, with nothing written or removed |
| LlmTask.LlmFailureAfterLastRetry | app/tasks/llm_task.py:82-99 | after the last retry: FAILED with str(e), the input removed, e re-raised |
| LlmTask.LlmRetriesWithinLimit | app/tasks/llm_task.py:36-89 | every retry request has countdown 60*(retries+1) and happens only while retries < 3 |
| OllamaTask.ProcessOllamaOcr | app/tasks/ollama_ocr_task.py:12-88 | the job matches its specification, and the table is the replay of its effects |
| OllamaTask.HandleProcessingFailure | app/tasks/ollama_ocr_task.py:55-79 | a processing failure: with retries left the Retry is requested and recorded FAILED by the outer handler; otherwise FAILED with the processing message |
| OllamaTask.ProcessingFailedEndsFailed | app/tasks/ollama_ocr_task.py:55-79 | every processing failure ends with a FAILED write whose error is the returned dict's error |
| OllamaTask.OllamaFailurePoll | app/tasks/ollama_ocr_task.py:23-88 | whenever the job does not complete, polling shows failed with the error of the returned dict |
| OllamaTask.OllamaResultShape | app/tasks/ollama_ocr_task.py:45-79 | the returned dict's status is "completed" or "failed", never "cancelled"; completed exactly when the input exists and recognition and upload succeed |
| OllamaTask.OllamaAlwaysCleansUp | app/tasks/ollama_ocr_task.py:81-88 | `finally` removes the input exactly when it exists, as the last effect |
| OllamaTask.OllamaMissingInput | app/tasks/ollama_ocr_task.py:23-72 | a missing input is written FAILED twice with the same message and returned, with no retry |
| OllamaTask.OllamaSuccess | app/tasks/ollama_ocr_task.py:36-48 | the text goes to "<task_id>.txt", the completed dict carries the URL, and polling shows it |
| OllamaTask.OllamaRetryThenFails | app/tasks/ollama_ocr_task.py:55-79 | with retries left, a retry in 60 s is requested, yet the Retry is caught and recorded FAILED, and the input is removed |
| OllamaTask.OllamaRetryFindsNoInput | app/tasks/ollama_ocr_task.py:55-88 | the re-delivery a retry asks for finds its input removed and only records the missing file |
| OllamaTask.OllamaCancelRecordedAsFailure | app/tasks/ollama_ocr_task.py:50-79 | a cancellation is recorded FAILED with the AttributeError's text, never as cancelled |
| OllamaTask.OllamaFailureAfterLastRetry | app/tasks/ollama_ocr_task.py:61-65 | after the last retry: FAILED with "Ollama OCR处理失败: " + str(e), returned in a failed dict |

## Left out

- Logging, and the large-file warning of `split_pdf_to_images` (app/utils/pdf_utils.py:68-73): neither changes a result.
- Threads and locks: each registry method runs under the service's lock and is one atomic step; another thread's `cancel_task` is the `cancelAt` parameter.
- The SQLite connection, `init_db`'s directory creation, and the format of `created_at`: the table is a map and the timestamp a number.
- Real sleeps of the retry decorator: the model returns the sleep durations instead.
- Celery delivery itself (queueing, workers, eager mode, calling a job directly): a job runs once for a given `self.request.retries`, and `self.retry` always re-sends and raises.
- Failures of `os.remove` in the jobs: the source catches and logs them.
- Routes.UploadFile: `file.save`, `save_task_status` and `process_ocr.delay` (app/api/routes.py:39-45) always succeed in the model. The handler has no `except`, so a failure of any of them ends in a 500 response, and a failed `delay` leaves a "processing" row that no job will update.
- MinIO, pytesseract, pdf2image and the HTTP clients: oracles or outcome parameters.
- werkzeug's `secure_filename` and `uuid.uuid4`: parameters.
- `MAX_CONTENT_LENGTH` and the request size limit: enforced by Flask before the handler runs.
- The Ollama service constructor's availability probe and its directory creation: done once at start-up and not part of a request.
- Common.Lower: lower-cases ASCII letters only; Python's `str.lower` also folds other scripts.
- Common.Repr: quoting follows Python for messages without quotes or backslashes only.
- LlmService.Show: lists and objects inside an f-string are shown by their brackets only.
- Floating-point numbers in JSON replies: not modelled.
- OllamaService.ReplyOutcome: a JSON body that is not an object is not modelled.
- OllamaService.ReplyOutcome: the "response" field is a string or absent. A non-string value (app/services/ollama_ocr_service.py:131-134) is not modelled: `null` would make `len()` raise TypeError, and a number would too, while a list or object would be returned as it is rather than as text.
- LlmTask.ProcessLlm: a non-string text content (an object returned by `_extract_text_from_api_response`) is treated as its text.
- Failures of `image.save` on a real image (the PDF fallback save loop, and the JPEG encoding of each page in the LLM service): not modelled.
- OllamaService.SplitPdfToImages: every page that is not cancelled is saved. A failure of `image.save(image_path, "PNG")` (app/services/ollama_ocr_service.py:172), which the handler at lines 181-183 re-raises, is not modelled.
- The text of the AttributeError raised at `TaskStatus.CANCELLED` follows Python 3.12's wording; other Python versions word it differently.
