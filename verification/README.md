# Photo-to-vector-art page: a verified model of its controller

`script.js` drives a one-page tool. A user picks an image, which is
uploaded under a random name. Pressing "generate" submits a
"photoToVectorArt" job for the uploaded address. The page then polls the
job's status up to 60 times and shows the vector image the job returns,
which the download button saves. This project models that pipeline in
Dafny and proves what it does. The pipeline covers:

- the random id and the stored file's name and public address;
- the bounded status-polling loop;
- the rule that maps a status text to the generate button;
- picking the result address out of a completed report;
- the file-select, generate, reset and download handlers, including the
  download's proxy-then-direct fallback.

Every network reply is an input. A `fetch` becomes a `Reply`: either the
promise rejected with a message, or a response arrived with its `ok` flag,
`statusText` and body. The replies to the status requests are a function
`respond`, where `respond(i)` answers the `i`-th request. `Math.random()`
becomes a sequence of draws in `[0, 1)`. A download strategy becomes a flag
saying whether it delivered the bytes.

Modules:

- `Wrappers`: `Option` and `Result`.
- `Text`: the string operations the page uses. These are `startsWith`,
  `includes`, `split`/`join` on one character, `String(n)`, and JavaScript
  truthiness of an optional string.
- `Naming`: `generateNanoId` as a loop method over the draws; the extension
  rule; the file name and the public address.
- `Api`: replies, the request log, the job body, and `uploadFile`.
- `Extraction`: the result-address rule.
- `Status`: `updateStatus` as a function on the generate button, and the
  progress texts.
- `Polling`: the loop's specification.
- `Download`: the two-strategy fetch.
- `Page`: the page's observable state `PageState`, and each handler as a
  function of the old state and of the replies.
- `Orchestrator`: class `Controller`. Its fields are the page's state; its
  methods are the handlers, written step by step as in `script.js`. The
  polling method holds the `while` loop. Each method is proved to leave
  `Page()` equal to the matching function of module `Page`. Each handler
  also preserves `Valid()`: generate is enabled only while there is an
  uploaded address, and download only while there is something to fetch.

Some behaviour, proved as written:
- A failed upload leaves generate disabled with the label "UPLOADING...",
  because `updateStatus('ERROR')` does not touch the button.
- A failed generate re-enables the button with the last in-progress text as
  its label.
- A timed-out job leaves the button enabled under "PROCESSING... (60)".
- Reset disables generate (`script.js:336-339`), so generate stays unusable
  until a new upload.

## Model

| member | source | states |
|---|---|---|
| Naming.DrawIndex | script.js:50 | the position `Math.floor(r * 62)` picked by a draw in [0, 1) is a valid alphabet index |
| Naming.DrawnId | script.js:48-51 | the id built from the draws has one character per draw, each from the 62-character alphabet |
| Naming.GenerateNanoId | script.js:46-53 | the loop returns exactly the id the draws select, in order, and it has the requested length over the alphabet |
| Naming.DrawnIdSnoc | script.js:49-51 | one more draw appends exactly the character that draw selects |
| Naming.DrawFor | script.js:50 | every alphabet position is selected by some draw in [0, 1) |
| Naming.EveryNanoIdIsDrawn | script.js:46-53 | every string of the given length over the alphabet is produced by some sequence of draws, so the id predicate describes exactly the possible ids |
| Naming.NoDotInNanoId | script.js:47 | an id never contains a dot, since the alphabet has none |
| Naming.Extension | script.js:103 | the extension is never empty and never contains a dot |
| Naming.FileName | script.js:105 | the stored object's name: the id, a dot, and the extension |
| Naming.PublicUrl | script.js:131 | the address an uploaded object is served from: "https://contents.maxstudio.ai/" followed by its name |
| Naming.ExtensionAfterLastDot | script.js:103 | the extension of `base + "." + ext`, for a non-empty dot-free `ext`, is `ext`, whatever dots `base` holds |
| Naming.ExtensionOfUndottedName | script.js:103 | a non-empty name without a dot is its own extension ("photo" gives "photo") |
| Naming.ExtensionDefault | script.js:103 | the last dot-separated segment is empty exactly when the name is empty or ends in a dot, and then the extension is "jpg" |
| Naming.LastPartNonEmpty | script.js:103 | a name not ending in a dot has a non-empty last segment |
| Naming.FileNameRoundTrip | script.js:103-105 | the stored name `id + "." + extension` splits on dots into exactly the id and the extension, and its own extension is the original one |
| Naming.PngAddress | script.js:103-105 | uploading any "<base>.png" file gives the address content host + id + ".png" |
| Text.DigitChar | script.js:188 | the digit character for d < 10 lies in '0'..'9' and stands for d |
| Text.StartsWith | script.js:200 | `s.startsWith(p)`: `p` is a prefix of `s` |
| Text.Includes | script.js:72 | `s.includes(sub)`: `sub` occurs in `s` at some position |
| Text.Split | script.js:103 | `s.split(sep)` for one character: the maximal separator-free runs between separators, in order, with an empty part where two separators meet or one starts or ends the string; the result always has at least one part |
| Text.NatToString | script.js:188 | `String(n)` is a non-empty string of decimal digits |
| Text.NatToStringValue | script.js:188 | the digits written for n denote n |
| Text.SplitPartsLackSeparator | script.js:103 | no part produced by `split(sep)` contains the separator |
| Text.JoinSplit | script.js:103 | joining the parts of a split with the separator gives back the string |
| Text.SplitWithoutSeparator | script.js:103 | a string without the separator splits into itself alone |
| Text.SplitConcat | script.js:103 | splitting `a + sep + b` gives the parts of `a` followed by the parts of `b` |
| Text.SplitJoin | script.js:103 | splitting the join of separator-free parts gives back the parts |
| Api.UploadFileOutcome | script.js:102-132 | the upload succeeds exactly when both the signed-URL reply and the PUT reply succeed, and then returns the public address of `<id>.<extension>`. It always asks for a signed URL for that name first. After a failed signed-URL reply it makes no PUT and throws that reply's message. Otherwise it PUTs the file to the signed URL with the file's MIME type. A failed PUT throws its error: the rejection's message, or "Failed to upload file: " plus the status text |
| Api.UploadFile | script.js:102-132 | `uploadFile`: ask for a signed URL for `<id>.<extension>`, throw on a failed reply, else PUT the file there with its MIME type, throw on a failed PUT, else return the public address; with the requests made, in order |
| Api.UploadedAddress | script.js:103-131 | a successful upload's address starts with the content host, and the rest splits on dots into exactly the id and the original extension |
| Extraction.FirstTruthy | script.js:247 | `a \|\| b \|\| c` tested for truthiness: the result is present exactly when some value is non-empty, and it is the first such value |
| Extraction.FirstTruthyAfterFalsyHead | script.js:247 | behind an empty or missing first value, the first non-empty value of the rest is the first of the whole |
| Extraction.SelectedItem | script.js:246 | the entry the page reads: element 0 of an array result (none for an empty array), the result itself otherwise, none when the result is absent |
| Extraction.ExtractResultUrl | script.js:246-249 | an extracted address is never empty |
| Extraction.ExtractionUsesFirstEntry | script.js:246 | an array result uses its element 0; an empty array or an absent result gives no address |
| Extraction.ExtractionPrecedence | script.js:247 | `mediaUrl` wins when non-empty, then `image`, then `video`; there is no address exactly when all three are missing or empty |
| Status.ProgressLabels | script.js:188 | n unfinished polls give exactly n progress texts |
| Status.ProgressLabelsAt | script.js:188 | the i-th progress text, counting from 0, is "PROCESSING... (i+1)" |
| Status.UpdateStatus | script.js:66-83 | `updateStatus`'s effect on the generate button: a text containing "PROCESSING", "UPLOADING", "SUBMITTING" or "QUEUED" disables it and becomes its label; "READY" enables it as "Generate Vector Art"; "COMPLETE" enables it as "Generate Again"; any other text leaves it as it was |
| Status.PageTextsClassified | script.js:72-81 | "UPLOADING...", "SUBMITTING JOB...", "JOB QUEUED..." and every "PROCESSING... (n)" count as busy texts; "READY", "COMPLETE" and "ERROR" do not |
| Status.UpdateStatusOnBusyTexts | script.js:72-74 | each busy text disables the generate button and becomes its label, whatever the button was |
| Status.UpdateStatusOnOutcomeTexts | script.js:75-81 | "READY" enables the button as "Generate Vector Art"; "COMPLETE" enables it as "Generate Again"; "ERROR" leaves it unchanged |
| Status.ApplyOneStatus | script.js:66-83 | helper for the fold over status texts: a one-text run is one `updateStatus` call |
| Status.ApplyTwoStatuses | script.js:66-83 | helper for the fold over status texts: a two-text run is two `updateStatus` calls in order |
| Status.ApplyStatusesSnoc | script.js:66-83 | helper for the fold over status texts: one more text is one more `updateStatus` call on the button so far |
| Status.UpdateStatusIdempotent | script.js:66-83 | showing the same text twice in a row has the same effect as showing it once |
| Status.ApplyStatusesAppend | script.js:66-83 | showing two runs of texts one after the other is showing their concatenation |
| Status.ProgressKeepsButtonDisabled | script.js:188 | after n >= 1 unfinished polls the button is disabled and labelled with the n-th progress text, whatever it was before |
| Polling.FirstEnding | script.js:167-193 | the search for the first reply that ends polling returns an index between its start and 60, and the reply there ends polling when it is below 60 |
| Polling.EndsPolling | script.js:173-186 | the replies after which the loop stops: a rejected request, a non-ok response, or a report whose status is "completed", "failed" or "error" |
| Polling.Verdict | script.js:173-186 | what the loop does with such a reply: a rejection or a non-ok response throws ("Failed to check status: " plus the status text for the latter), a completed report is returned, a failed or error report throws its `error` or "Job processing failed" |
| Polling.FirstEndingIsFirst | script.js:167-193 | no reply before the index the search returns ends polling |
| Polling.FirstEndingSkips | script.js:180-192 | a reply that does not end polling passes the search on to the next request |
| Polling.PollSpec | script.js:164-196 | the loop makes at least 1 and at most 60 status requests |
| Polling.PollSpecEndsAt | script.js:173-186 | when the search from k ends at k and agrees with the search from 0, reply k decides the loop after k + 1 requests and k progress texts |
| Polling.PollSpecTimesOut | script.js:195 | when the search reaches 60 and agrees with the search from 0, the loop times out |
| Polling.PollTimesOut | script.js:165-195 | none of the first 60 replies ends polling exactly when all 60 progress texts are shown, and then the loop throws "Job timed out" after exactly 60 requests |
| Polling.PollStopsAtFirstEnding | script.js:167-192 | if reply k < 60 is the first to end polling, that reply decides the outcome after exactly k + 1 requests, with "PROCESSING... (1)" to "PROCESSING... (k)" shown before |
| Polling.VerdictMessages | script.js:173-186 | a completed report is returned as it is; a failed or error report throws its non-empty `error`, else "Job processing failed"; a non-ok response throws "Failed to check status: " plus its status text; a rejected request throws its own message |
| Download.DownloadStrategies | script.js:380-397 | the proxy is always tried first. The address is fetched directly exactly when the proxy failed. The file is saved from the proxy exactly when the proxy delivered, and the manual-save hint is shown exactly when both failed. A saved file is named `vector_art_<id>.png` |
| Download.DownloadAttempts | script.js:380-397 | the two strategies: the proxy request, then the direct request only when the proxy did not deliver; the file saved as `vector_art_<id>.png` from whichever delivered, or the manual-save hint when neither did |
| Page.NonImageRejected | script.js:200-203 | a file whose type does not start with "image/" is refused with the alert. No request is made, and the stored address, both buttons and the result are unchanged |
| Page.FileSelected | script.js:199-228 | `handleFileSelect`: a non-image file only adds the alert; an image file is uploaded and the page is updated as the upload ends |
| Page.UploadStarted | script.js:206-212 | the upload's first steps: "UPLOADING..." shown, the result hidden, download disabled |
| Page.UploadFinished | script.js:214-227 | the upload's end: on success the address is stored and previewed, "READY" shown and generate enabled; on failure "ERROR" shown and "Error: " plus the message alerted |
| Page.AfterUpload | script.js:205-227 | the page once an upload run is over: started, its requests logged, finished with its outcome |
| Page.UploadSucceeds | script.js:204-221 | a successful upload stores and previews the public address and hides the result. It enables generate as "Generate Vector Art", keeps download disabled and alerts nothing. It makes exactly the two upload requests, and the page stays consistent |
| Page.UploadFailureKeepsGenerateDisabled | script.js:222-227 | a failed upload alerts "Error: " plus the message and keeps the previously stored address. It shows "ERROR" and leaves generate disabled under "UPLOADING..." and download disabled |
| Page.AfterUploadPage | script.js:204-227 | the whole page after an upload run, for either outcome, with the generate button worked out |
| Page.FileSelectedKeepsConsistent | script.js:199-228 | selecting a file keeps generate enabled only with an uploaded address and download only with something to fetch |
| Page.PollRequests | script.js:167-171 | a job's poll log has one status request per poll |
| Page.PollRequestsSnoc | script.js:168-171 | each poll appends one status request for the job at the end of the log |
| Page.Polled | script.js:241-243 | the page once the job is queued and polled: the status requests logged, and "JOB QUEUED..." and then each progress text passed to `updateStatus` |
| Page.Generated | script.js:231-277 | `handleGenerate`: nothing without an uploaded address; otherwise the page after the whole generate run |
| Page.AfterGenerate | script.js:236-276 | the page once a generate run is over: its requests logged and its status texts shown in order; on a result the image shows it and download points at it and is enabled; on an error it is alerted and generate enabled again |
| Page.GenerateFlow | script.js:231-277 | a generate run shows "SUBMITTING JOB..." first and at least one more text. Its last text is "COMPLETE" when it yields an address and "ERROR" otherwise, and a yielded address is non-empty |
| Page.AwaitFlow | script.js:241-268 | once the job is accepted, "JOB QUEUED..." is shown first and the run ends with "COMPLETE" exactly when it yields a non-empty address, else with "ERROR" |
| Page.AfterGenerateSteps | script.js:236-276 | showing the submit step and then the rest of a run ends where showing the joined run ends |
| Page.GenerateNeedsUpload | script.js:232 | without an uploaded address, generate changes nothing at all |
| Page.ButtonWhilePolling | script.js:241 | after "JOB QUEUED..." and n progress texts the button is disabled under the last of them |
| Page.ButtonAfterAwait | script.js:241-268 | after waiting for a job, the button is "Generate Again" and enabled on a result. Otherwise it is disabled under "JOB QUEUED..." or the last progress text |
| Page.GenerateButtonAfterRun | script.js:236-275 | a run's texts leave the button as "Generate Again" on success. A rejected submit leaves it under "SUBMITTING JOB...", and any later failure leaves it under the last in-progress text |
| Page.GenerateSucceeds | script.js:252-268 | a successful run shows the address as the result and points download at it. It enables download with its text kept and enables generate as "Generate Again". It shows "COMPLETE", alerts nothing and keeps the upload |
| Page.GenerateFails | script.js:271-276 | a failed run alerts "Error: " plus its message, re-enables generate and shows "ERROR". It leaves the upload, the result and download untouched |
| Page.GenerateCompletesAtFirstEnding | script.js:239-268 | when status reply k < 60 is the first to end polling and is completed with an address, the run logs one submit and exactly k + 1 status requests. It displays that address, enables download and shows "Generate Again" |
| Page.GenerateTimesOut | script.js:241-276 | when no status reply among the first 60 ends polling, the run logs one submit and exactly 60 status requests. It alerts "Error: Job timed out" and leaves generate enabled under "PROCESSING... (60)" |
| Page.GenerateReportsJobError | script.js:184-186 | a first ending report that failed with a non-empty error alerts exactly that error |
| Page.GenerateFindsNoResult | script.js:246-249 | a completed report without a usable address alerts "Error: No result URL found" and changes neither the result image nor download |
| Page.GeneratedKeepsConsistent | script.js:231-277 | generating keeps generate enabled only with an uploaded address and download only with something to fetch |
| Page.ResetPage | script.js:322-351 | the reset handler: the upload and the preview forgotten, generate disabled under "Generate Vector Art", the result image cleared and hidden, download disabled, the status text emptied |
| Page.ResetClears | script.js:322-351 | reset forgets the upload, disables generate under "Generate Vector Art", disables download and clears the result. It makes no request, leaves a consistent page, and afterwards generate does nothing |
| Page.DownloadFallsBack | script.js:361-401 | download logs the proxy request, and the direct one only after a proxy failure. It alerts the manual-save hint exactly when both fail and saves the file otherwise. It always re-enables the button with its original text |
| Page.DownloadNeedsTarget | script.js:361-362 | with neither a stored address nor a result image source, download changes nothing |
| Page.Downloaded | script.js:356-402 | the download handler: nothing without a target; otherwise the button shows "Downloading..." while both strategies run, and is then enabled again with its original text |
| Page.AfterDownload | script.js:380-397 | the page once the strategies are over: their requests logged, and the file saved or the manual-save hint alerted |
| Page.DownloadTarget | script.js:361 | what download fetches: the stored `dataset.url` when set, else the result image's source |
| Page.Consistent | script.js:232 | the invariant every handler keeps: generate enabled only with an uploaded address, and download enabled only with a target |
| Page.DownloadedKeepsConsistent | script.js:356-402 | a download keeps generate enabled only with an uploaded address and download only with something to fetch |
| Page.PhotoToVectorArt | script.js:102-268 | uploading "<base>.png" stores content host + id + ".png". Generating from it, when the first status reply is completed with a `mediaUrl`, shows that address as the result and points download at it |
| Orchestrator.Controller.constructor | script.js:30-40 | the controller starts with nothing uploaded, both buttons disabled, no result, and a consistent page |
| Orchestrator.Controller.ShowStatus | script.js:66-83 | shows the text and sets the generate button to `updateStatus`'s result |
| Orchestrator.Controller.HandleFileSelect | script.js:199-228 | from a consistent page, leaves exactly the page the file-select transition gives for the id the draws produce, and the page stays consistent |
| Orchestrator.Controller.StartUpload | script.js:206-212 | shows "UPLOADING...", hides the result and disables download |
| Orchestrator.Controller.FinishUpload | script.js:214-227 | either stores and previews the address, shows "READY" and enables generate, or shows "ERROR" and alerts |
| Orchestrator.Controller.PollJobStatus | script.js:164-196 | the loop returns the outcome the polling specification gives. It logs exactly that many status requests and leaves the button and status text on the last progress text, or untouched when there was none |
| Orchestrator.Controller.ShowProgress | script.js:188 | shows the n-th progress text and disables generate under it |
| Orchestrator.Controller.FailGenerate | script.js:271-276 | shows "ERROR", alerts the message and re-enables generate |
| Orchestrator.Controller.ShowResult | script.js:252-268 | shows the result, points download at it, enables download and shows "COMPLETE" |
| Orchestrator.Controller.QueueAndPoll | script.js:241-243 | shows "JOB QUEUED..." and polls, leaving the page the polling specification gives |
| Orchestrator.Controller.AwaitResult | script.js:241-268 | leaves exactly the page that waiting for the accepted job gives |
| Orchestrator.Controller.HandleGenerate | script.js:231-277 | from a consistent page, leaves exactly the page the generate transition gives, and the page stays consistent |
| Orchestrator.Controller.Reset | script.js:322-352 | leaves exactly the page the reset transition gives, and the page stays consistent |
| Orchestrator.Controller.FetchResult | script.js:380-397 | logs the fetches of the two strategies and records the saved file or the manual-save alert, as the strategy rule gives |
| Orchestrator.Controller.HandleDownload | script.js:357-402 | from a consistent page, leaves exactly the page the download transition gives for the id the draws produce, and the page stays consistent |

## Left out

- The mobile menu, the FAQ accordion, the modals and the scroll animations (script.js:6-22, 405 onwards) have no logic to state.
- The event wiring (script.js:283-318) is not modelled. Both the file input and the drop zone pass only the first file to the file-select handler, and an empty selection does nothing. The model's handler takes that one file.
- The loading spinner, CSS classes and styles are not modelled. These are `showLoading`, `hideLoading`, the placeholders, `style.filter` and the drag-over colours. Only the preview source, the result image's source and visibility, and the two buttons are kept.
- The network, JSON parsing and Blob handling are not modelled. Each reply is an input.
- The submitted job's id is the reply body. A body that is not JSON, or that has no `jobId`, is not modelled.
- A status reply whose body fails to parse counts as a rejected request. `encodeURIComponent`, the request URLs, `URL.createObjectURL` and the link click are not modelled. The request log records what each request asks for.
- `setTimeout`: the 2000 ms wait between polls and the object-URL revocation are not modelled. Polls are counted instead of timed.
- `Math.random()` is a sequence of draws in [0, 1). Floating-point rounding of `r * 62` is not modelled; it is taken as exact real arithmetic.
- `alert` and `console` output: an alert is an entry in the page's alert log, and console output is dropped.
- Each handler runs to completion as one step. A reset or a second action while an upload or poll is in flight is a race the code does not guard against, and it is not modelled.
- A click on a disabled button is not modelled. Browsers do not deliver it, and the handlers do not check for it.
- The status element lookup falls back from `#status-text` to `.status-text` in `updateStatus`, while reset clears only `#status-text`. The model has one status text, which both write.
- `fileInput.value` is not modelled. Clearing it on reset has no other effect on the page.
- The page's markup is not modelled. Only the initial button texts are the constructor's parameters. The model assumes that both buttons start disabled and that the result image starts with no source. The markup's result image may in fact hold a demo picture, which script.js:256 hints at.
- Every page element is assumed to exist. The null guards on the buttons, the result image and the status element (for example script.js:71, 210-212 and 252-266) are not modelled.
- An array result whose element 0 is `null` is not modelled: every entry is an object whose three fields may each be missing.
