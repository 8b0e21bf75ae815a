/** The page's observable state and what each user action does to it, as
    functions of the old state and of the replies the network gives. */
module Page {
  import opened Wrappers
  import opened Text
  import opened Naming
  import opened Api
  import opened Extraction
  import opened Status
  import opened Polling
  import opened Download

  const ImagePrefix: string := "image/"
  const NotAnImageMessage: string := "Please upload an image file"
  const NoResultMessage: string := "No result URL found"

  /** `showError(msg)` alerts the message behind "Error: ". */
  function ErrorAlert(message: string): string {
    "Error: " + message
  }

  /** Everything a user action can change: the uploaded address, the two
      buttons, the download button's `dataset.url` ("" when unset), the
      preview (its source when shown), the result image's source and
      visibility, the status text, and the logs of alerts shown, files saved
      and network requests made. */
  datatype PageState = PageState(
    currentUploadedUrl: Option<string>,
    generate: Button,
    download: Button,
    downloadUrl: string,
    preview: Option<string>,
    resultSrc: string,
    resultVisible: bool,
    statusText: string,
    alerts: seq<string>,
    saved: seq<string>,
    requests: seq<Request>)

  /** What the download button fetches: `dataset.url || resultImage.src`. */
  function DownloadTarget(s: PageState): string {
    if s.downloadUrl != "" then s.downloadUrl else s.resultSrc
  }

  /** Generate is enabled only while there is an uploaded image to send, and
      download only while there is something to fetch. */
  predicate Consistent(s: PageState) {
    && (!s.generate.disabled ==> Truthy(s.currentUploadedUrl))
    && (!s.download.disabled ==> DownloadTarget(s) != "")
  }

  // ---------------------------------------------------------------- upload

  /** `handleFileSelect(file)`, with the generated id and the two upload replies. */
  function FileSelected(s: PageState, file: FileInfo, id: string, signedUrlReply: Reply, putReply: Reply): PageState {
    if !StartsWith(file.mimeType, ImagePrefix) then
      s.(alerts := s.alerts + [NotAnImageMessage])
    else
      AfterUpload(s, UploadFile(file, id, signedUrlReply, putReply))
  }

  /** The page once an image upload `run` has finished: the upload was
      started, its requests logged, and it was finished with its outcome. */
  function AfterUpload(s: PageState, run: UploadRun): PageState {
    var started := UploadStarted(s);
    UploadFinished(started.(requests := started.requests + run.requests), run.outcome)
  }

  /** The start of an image upload: "UPLOADING...", the result hidden and
      download disabled. */
  function UploadStarted(s: PageState): PageState {
    s.(statusText := UploadingText, generate := UpdateStatus(s.generate, UploadingText),
       resultVisible := false, download := s.download.(disabled := true))
  }

  /** The end of an image upload: either the new address is stored and shown
      with "READY" and generate enabled, or "ERROR" and the alert. */
  function UploadFinished(s: PageState, outcome: Result<string>): PageState {
    match outcome
    case Ok(url) =>
      s.(currentUploadedUrl := Some(url), preview := Some(url), statusText := ReadyText,
         generate := UpdateStatus(s.generate, ReadyText).(disabled := false))
    case Err(message) =>
      s.(statusText := ErrorText, generate := UpdateStatus(s.generate, ErrorText),
         alerts := s.alerts + [ErrorAlert(message)])
  }

  /** A file whose type is not an image is refused with an alert: no request
      is made and the upload, buttons and result stay as they were. */
  lemma NonImageRejected(s: PageState, file: FileInfo, id: string, signedUrlReply: Reply, putReply: Reply)
    requires !StartsWith(file.mimeType, ImagePrefix)
    ensures var t := FileSelected(s, file, id, signedUrlReply, putReply);
            && t.requests == s.requests && t.currentUploadedUrl == s.currentUploadedUrl
            && t.generate == s.generate && t.download == s.download && t.resultSrc == s.resultSrc
            && t.alerts == s.alerts + [NotAnImageMessage]
  {
  }

  /** A successful upload stores the public address of `<id>.<extension>`,
      shows it as the preview, enables generate with its default label and
      leaves download disabled, after exactly the two upload requests. */
  lemma UploadSucceeds(s: PageState, file: FileInfo, id: string, signedUrlReply: Reply, putReply: Reply)
    requires StartsWith(file.mimeType, ImagePrefix)
    requires Succeeded(signedUrlReply) && Succeeded(putReply)
    ensures var t := FileSelected(s, file, id, signedUrlReply, putReply);
            var url := PublicUrl(FileName(id, file.name));
            && t.currentUploadedUrl == Some(url) && t.preview == Some(url)
            && t.generate == Button(false, DefaultLabel) && t.download.disabled && !t.resultVisible
            && t.requests == s.requests + [GetUploadUrl(FileName(id, file.name)),
                                           PutFile(signedUrlReply.body, file.mimeType)]
            && t.alerts == s.alerts && Consistent(t)
  {
    AfterUploadPage(s, UploadFile(file, id, signedUrlReply, putReply));
  }

  /** A failed upload alerts the error, keeps the previous address, and leaves
      generate disabled under the label "UPLOADING..." and download disabled. */
  lemma UploadFailureKeepsGenerateDisabled(s: PageState, file: FileInfo, id: string, signedUrlReply: Reply, putReply: Reply)
    requires StartsWith(file.mimeType, ImagePrefix)
    requires !(Succeeded(signedUrlReply) && Succeeded(putReply))
    ensures var t := FileSelected(s, file, id, signedUrlReply, putReply);
            && t.currentUploadedUrl == s.currentUploadedUrl
            && t.generate == Button(true, UploadingText) && t.download.disabled
            && t.statusText == ErrorText
            && t.alerts == s.alerts + [ErrorAlert(UploadFile(file, id, signedUrlReply, putReply).outcome.message)]
  {
    AfterUploadPage(s, UploadFile(file, id, signedUrlReply, putReply));
  }

  /** Helper: the page after an upload run, with the generate button worked
      out: enabled under its default label after a success, disabled under
      "UPLOADING..." after an error. */
  lemma AfterUploadPage(s: PageState, run: UploadRun)
    ensures var s1 := s.(resultVisible := false, download := s.download.(disabled := true),
                         requests := s.requests + run.requests);
            AfterUpload(s, run) ==
              if run.outcome.Ok? then
                s1.(currentUploadedUrl := Some(run.outcome.value), preview := Some(run.outcome.value),
                    statusText := ReadyText, generate := Button(false, DefaultLabel))
              else
                s1.(statusText := ErrorText, generate := Button(true, UploadingText),
                    alerts := s.alerts + [ErrorAlert(run.outcome.message)])
  {
    UpdateStatusOnBusyTexts(s.generate, 0);
    UpdateStatusOnOutcomeTexts(Button(true, UploadingText));
  }

  lemma FileSelectedKeepsConsistent(s: PageState, file: FileInfo, id: string, signedUrlReply: Reply, putReply: Reply)
    requires Consistent(s)
    ensures Consistent(FileSelected(s, file, id, signedUrlReply, putReply))
  {
    if StartsWith(file.mimeType, ImagePrefix) {
      if Succeeded(signedUrlReply) && Succeeded(putReply) {
        UploadSucceeds(s, file, id, signedUrlReply, putReply);
      } else {
        UploadFailureKeepsGenerateDisabled(s, file, id, signedUrlReply, putReply);
      }
    }
  }

  // -------------------------------------------------------------- generate

  /** The poll requests for a job: `n` identical status requests. */
  function PollRequests(jobId: string, n: nat): (rs: seq<Request>)
    ensures |rs| == n
  {
    seq(n, _ => PollStatus(UserId, jobId))
  }

  /** One more poll is one more status request at the end of the log. */
  lemma PollRequestsSnoc(log: seq<Request>, jobId: string, n: nat)
    ensures log + PollRequests(jobId, n + 1) == log + PollRequests(jobId, n) + [PollStatus(UserId, jobId)]
  {
    assert PollRequests(jobId, n + 1) == PollRequests(jobId, n) + [PollStatus(UserId, jobId)];
  }

  /** What one generate run does: the requests it makes, the status texts it
      shows in order, and the result address or the error it ends with. */
  datatype GenerateRun = GenerateRun(requests: seq<Request>, statuses: seq<string>, outcome: Result<string>)

  /** Submit the job for `imageUrl`, then (once accepted) wait for its result. */
  function GenerateFlow(imageUrl: string, submitReply: Reply, respond: nat -> PollReply): (run: GenerateRun)
    ensures |run.statuses| >= 2 && run.statuses[0] == SubmittingText
    ensures run.statuses[|run.statuses| - 1] == if run.outcome.Ok? then CompleteText else ErrorText
    ensures run.outcome.Ok? ==> run.outcome.value != ""
  {
    var rest := if !Succeeded(submitReply) then GenerateRun([], [ErrorText], Err(ErrorMessage(SubmitContext, submitReply)))
                else AwaitFlow(submitReply.body, respond);
    GenerateRun([SubmitJob(JobFor(imageUrl))] + rest.requests, [SubmittingText] + rest.statuses, rest.outcome)
  }

  /** After the job `jobId` is accepted: "JOB QUEUED...", the polling, and
      the result address picked from the completed report. */
  function AwaitFlow(jobId: string, respond: nat -> PollReply): (run: GenerateRun)
    ensures |run.statuses| >= 2 && run.statuses[0] == QueuedText
    ensures run.statuses[|run.statuses| - 1] == if run.outcome.Ok? then CompleteText else ErrorText
    ensures run.outcome.Ok? ==> run.outcome.value != ""
  {
    var poll := PollSpec(respond);
    var requests := PollRequests(jobId, poll.requests);
    var shown := [QueuedText] + poll.labels;
    match poll.outcome
    case Failed(message) => GenerateRun(requests, shown + [ErrorText], Err(message))
    case Completed(report) =>
      match ExtractResultUrl(report.result)
      case None => GenerateRun(requests, shown + [ErrorText], Err(NoResultMessage))
      case Some(url) => GenerateRun(requests, shown + [CompleteText], Ok(url))
  }

  /** The page once the job `jobId` is queued and polled: the status
      requests logged, and "JOB QUEUED..." and the progress texts shown. */
  function Polled(s: PageState, jobId: string, respond: nat -> PollReply): PageState {
    var poll := PollSpec(respond);
    var shown := [QueuedText] + poll.labels;
    s.(requests := s.requests + PollRequests(jobId, poll.requests),
       generate := ApplyStatuses(s.generate, shown), statusText := shown[|shown| - 1])
  }

  /** `handleGenerate()`, with the submit reply and the status replies. */
  function Generated(s: PageState, submitReply: Reply, respond: nat -> PollReply): PageState {
    if !Truthy(s.currentUploadedUrl) then s
    else AfterGenerate(s, GenerateFlow(s.currentUploadedUrl.value, submitReply, respond))
  }

  /** The page once a generate `run` has finished: its requests are logged,
      its last status text shown, and either the result is displayed and
      download enabled or the error is alerted and generate enabled again. */
  function AfterGenerate(s: PageState, run: GenerateRun): PageState
    requires run.statuses != []
  {
    var shown := ApplyStatuses(s.generate, run.statuses);
    var s1 := s.(requests := s.requests + run.requests, statusText := run.statuses[|run.statuses| - 1]);
    match run.outcome
    case Ok(url) =>
      s1.(generate := shown, resultSrc := url, resultVisible := true,
          downloadUrl := url, download := s.download.(disabled := false))
    case Err(message) =>
      s1.(generate := shown.(disabled := false), alerts := s.alerts + [ErrorAlert(message)])
  }

  /** Helper: a run shown in two steps, the first logging `requests` and
      showing `statuses` (and any text), the second being `rest`, ends where
      the run joining them ends. */
  lemma AfterGenerateSteps(s: PageState, requests: seq<Request>, statuses: seq<string>, text: string, rest: GenerateRun)
    requires rest.statuses != []
    ensures AfterGenerate(s.(requests := s.requests + requests, generate := ApplyStatuses(s.generate, statuses),
                             statusText := text), rest) ==
            AfterGenerate(s, GenerateRun(requests + rest.requests, statuses + rest.statuses, rest.outcome))
  {
    ApplyStatusesAppend(s.generate, statuses, rest.statuses);
    assert s.requests + requests + rest.requests == s.requests + (requests + rest.requests);
    assert (statuses + rest.statuses)[|statuses + rest.statuses| - 1] == rest.statuses[|rest.statuses| - 1];
  }

  /** Without an uploaded address, generate does nothing at all. */
  lemma GenerateNeedsUpload(s: PageState, submitReply: Reply, respond: nat -> PollReply)
    requires !Truthy(s.currentUploadedUrl)
    ensures Generated(s, submitReply, respond) == s
  {
  }

  /** After "JOB QUEUED..." and `n` progress texts the generate button is
      disabled under the last of them. */
  lemma {:induction false} ButtonWhilePolling(b: Button, n: nat)
    ensures ApplyStatuses(b, [QueuedText] + ProgressLabels(n)) ==
            Button(true, if n == 0 then QueuedText else ProgressLabel(n))
  {
    UpdateStatusOnBusyTexts(b, 0);
    assert [QueuedText][..0] == [];
    assert ApplyStatuses(b, [QueuedText]) == UpdateStatus(b, QueuedText);
    ApplyStatusesAppend(b, [QueuedText], ProgressLabels(n));
    if n >= 1 {
      ProgressKeepsButtonDisabled(Button(true, QueuedText), n);
    }
  }

  /** The generate button after the statuses of the wait for a job: enabled
      as "Generate Again" on a result, else disabled under the last
      in-progress text. */
  lemma ButtonAfterAwait(b: Button, jobId: string, respond: nat -> PollReply)
    ensures var w := AwaitFlow(jobId, respond);
            var n := |PollSpec(respond).labels|;
            ApplyStatuses(b, w.statuses) ==
              if w.outcome.Ok? then Button(false, AgainLabel)
              else Button(true, if n == 0 then QueuedText else ProgressLabel(n))
  {
    var w := AwaitFlow(jobId, respond);
    var labels := PollSpec(respond).labels;
    var before := [QueuedText] + labels;
    var last := w.statuses[|w.statuses| - 1];
    assert w.statuses == before + [last];
    ApplyStatusesSnoc(b, before, last);
    assert labels == ProgressLabels(|labels|);
    ButtonWhilePolling(b, |labels|);
    UpdateStatusOnOutcomeTexts(ApplyStatuses(b, before));
  }

  /** The generate button after a run's status texts: "COMPLETE" leaves it
      enabled as "Generate Again"; a run ending in "ERROR" leaves it disabled
      under the last in-progress text: "SUBMITTING JOB..." when the submit
      failed, "JOB QUEUED..." when the first status reply ended polling, and
      the k-th progress text after k unfinished polls. */
  lemma GenerateButtonAfterRun(b: Button, imageUrl: string, submitReply: Reply, respond: nat -> PollReply)
    ensures var run := GenerateFlow(imageUrl, submitReply, respond);
            var shown := ApplyStatuses(b, run.statuses);
            var n := |PollSpec(respond).labels|;
            && (run.outcome.Ok? ==> shown == Button(false, AgainLabel))
            && (!Succeeded(submitReply) ==> shown == Button(true, SubmittingText))
            && (Succeeded(submitReply) && run.outcome.Err? ==>
                  shown == Button(true, if n == 0 then QueuedText else ProgressLabel(n)))
  {
    var run := GenerateFlow(imageUrl, submitReply, respond);
    if Succeeded(submitReply) {
      var w := AwaitFlow(submitReply.body, respond);
      assert run.statuses == [SubmittingText] + w.statuses;
      ApplyStatusesAppend(b, [SubmittingText], w.statuses);
      ButtonAfterAwait(ApplyStatuses(b, [SubmittingText]), submitReply.body, respond);
    } else {
      assert run.statuses == [SubmittingText, ErrorText];
      ApplyTwoStatuses(b, SubmittingText, ErrorText);
      UpdateStatusOnBusyTexts(b, 0);
      UpdateStatusOnOutcomeTexts(Button(true, SubmittingText));
    }
  }

  /** A completed run shows its result, points download at it and enables
      download (with its text kept) and generate ("Generate Again"). */
  lemma GenerateSucceeds(s: PageState, submitReply: Reply, respond: nat -> PollReply)
    requires Truthy(s.currentUploadedUrl)
    requires GenerateFlow(s.currentUploadedUrl.value, submitReply, respond).outcome.Ok?
    ensures var url := GenerateFlow(s.currentUploadedUrl.value, submitReply, respond).outcome.value;
            var t := Generated(s, submitReply, respond);
            && t.resultSrc == url && t.resultVisible && t.downloadUrl == url
            && t.download == Button(false, s.download.text)
            && t.generate == Button(false, AgainLabel) && t.statusText == CompleteText
            && t.alerts == s.alerts && t.currentUploadedUrl == s.currentUploadedUrl
  {
    GenerateButtonAfterRun(s.generate, s.currentUploadedUrl.value, submitReply, respond);
  }

  /** A failed run alerts its message and re-enables generate under the last
      in-progress text; the upload, result and download are untouched. */
  lemma GenerateFails(s: PageState, submitReply: Reply, respond: nat -> PollReply)
    requires Truthy(s.currentUploadedUrl)
    requires GenerateFlow(s.currentUploadedUrl.value, submitReply, respond).outcome.Err?
    ensures var message := GenerateFlow(s.currentUploadedUrl.value, submitReply, respond).outcome.message;
            var t := Generated(s, submitReply, respond);
            && t.alerts == s.alerts + [ErrorAlert(message)]
            && !t.generate.disabled && t.statusText == ErrorText
            && t.currentUploadedUrl == s.currentUploadedUrl
            && t.download == s.download && t.downloadUrl == s.downloadUrl && t.resultSrc == s.resultSrc
  {
    GenerateButtonAfterRun(s.generate, s.currentUploadedUrl.value, submitReply, respond);
  }

  /** When the submitted job's k-th status reply (k < 60) is the first to end
      polling and it is completed with an address, the run makes one submit
      and exactly k + 1 status requests and displays that address. */
  lemma GenerateCompletesAtFirstEnding(s: PageState, submitReply: Reply, respond: nat -> PollReply, k: nat)
    requires Truthy(s.currentUploadedUrl) && Succeeded(submitReply)
    requires k < MaxPolls && forall j :: 0 <= j < k ==> !EndsPolling(respond(j))
    requires respond(k).PollAnswered? && respond(k).ok && respond(k).report.status == "completed"
    requires ExtractResultUrl(respond(k).report.result).Some?
    ensures var url := ExtractResultUrl(respond(k).report.result).value;
            var t := Generated(s, submitReply, respond);
            && t.requests == s.requests + [SubmitJob(JobFor(s.currentUploadedUrl.value))]
                                        + PollRequests(submitReply.body, k + 1)
            && t.resultSrc == url && t.downloadUrl == url && !t.download.disabled
            && t.generate == Button(false, AgainLabel)
  {
    PollStopsAtFirstEnding(respond, k);
    GenerateSucceeds(s, submitReply, respond);
  }

  /** When none of the first 60 status replies ends polling, the run makes
      exactly 60 status requests and fails with "Job timed out", leaving
      generate enabled under "PROCESSING... (60)". */
  lemma GenerateTimesOut(s: PageState, submitReply: Reply, respond: nat -> PollReply)
    requires Truthy(s.currentUploadedUrl) && Succeeded(submitReply)
    requires forall j :: 0 <= j < MaxPolls ==> !EndsPolling(respond(j))
    ensures var t := Generated(s, submitReply, respond);
            && t.requests == s.requests + [SubmitJob(JobFor(s.currentUploadedUrl.value))]
                                        + PollRequests(submitReply.body, MaxPolls)
            && t.alerts == s.alerts + [ErrorAlert(TimeoutMessage)]
            && t.generate == Button(false, ProgressLabel(MaxPolls))
  {
    PollTimesOut(respond);
    GenerateFails(s, submitReply, respond);
    GenerateButtonAfterRun(s.generate, s.currentUploadedUrl.value, submitReply, respond);
  }

  /** A failed or error report surfaces exactly its own error text. */
  lemma GenerateReportsJobError(s: PageState, submitReply: Reply, respond: nat -> PollReply, k: nat)
    requires Truthy(s.currentUploadedUrl) && Succeeded(submitReply)
    requires k < MaxPolls && forall j :: 0 <= j < k ==> !EndsPolling(respond(j))
    requires respond(k).PollAnswered? && respond(k).ok && respond(k).report.status in {"failed", "error"}
    requires Truthy(respond(k).report.error)
    ensures Generated(s, submitReply, respond).alerts == s.alerts + [ErrorAlert(respond(k).report.error.value)]
  {
    PollStopsAtFirstEnding(respond, k);
  }

  /** A completed report without a usable address (an empty array, or no
      non-empty `mediaUrl`, `image` or `video`) alerts "No result URL found"
      and displays nothing: the result image and download stay as they were. */
  lemma GenerateFindsNoResult(s: PageState, submitReply: Reply, respond: nat -> PollReply, k: nat)
    requires Truthy(s.currentUploadedUrl) && Succeeded(submitReply)
    requires k < MaxPolls && forall j :: 0 <= j < k ==> !EndsPolling(respond(j))
    requires respond(k).PollAnswered? && respond(k).ok && respond(k).report.status == "completed"
    requires ExtractResultUrl(respond(k).report.result).None?
    ensures var t := Generated(s, submitReply, respond);
            && t.alerts == s.alerts + [ErrorAlert(NoResultMessage)]
            && t.resultSrc == s.resultSrc && t.resultVisible == s.resultVisible
            && t.downloadUrl == s.downloadUrl && t.download == s.download
  {
    PollStopsAtFirstEnding(respond, k);
  }

  lemma GeneratedKeepsConsistent(s: PageState, submitReply: Reply, respond: nat -> PollReply)
    requires Consistent(s)
    ensures Consistent(Generated(s, submitReply, respond))
  {
  }

  // ----------------------------------------------------------------- reset

  /** The reset button's handler. */
  function ResetPage(s: PageState): PageState {
    s.(currentUploadedUrl := None, preview := None, generate := Button(true, DefaultLabel),
       resultSrc := "", resultVisible := false, download := s.download.(disabled := true), statusText := "")
  }

  /** Reset forgets the upload, disables generate under its default label,
      disables download and clears the result, from any state; afterwards
      generate does nothing until a new upload. */
  lemma ResetClears(s: PageState, submitReply: Reply, respond: nat -> PollReply)
    ensures var t := ResetPage(s);
            && t.currentUploadedUrl == None && t.generate == Button(true, DefaultLabel)
            && t.download.disabled && t.resultSrc == "" && !t.resultVisible
            && t.requests == s.requests && Consistent(t)
            && Generated(t, submitReply, respond) == t
  {
  }

  // -------------------------------------------------------------- download

  /** The download button's handler, with the outcome of each strategy and
      the id for the saved file's name. */
  function Downloaded(s: PageState, proxyDelivered: bool, directDelivered: bool, saveId: string): PageState {
    var url := DownloadTarget(s);
    if url == "" then s
    else
      var fetching := s.(download := Button(true, DownloadingText));
      var fetched := AfterDownload(fetching, DownloadAttempts(url, proxyDelivered, directDelivered, saveId));
      fetched.(download := Button(false, s.download.text))
  }

  /** The page once the download `run` is over: its requests logged, and the
      file saved or the manual-save hint alerted. */
  function AfterDownload(s: PageState, run: DownloadRun): PageState {
    s.(requests := s.requests + run.requests,
       saved := if run.outcome.ManualSave? then s.saved else s.saved + [run.outcome.fileName],
       alerts := if run.outcome.ManualSave? then s.alerts + [ManualSaveMessage] else s.alerts)
  }

  /** Download fetches through the proxy first and directly only when the
      proxy fails; it alerts the manual-save hint only when both fail; and it
      always leaves the button enabled with the text it had. */
  lemma DownloadFallsBack(s: PageState, proxyDelivered: bool, directDelivered: bool, saveId: string)
    requires DownloadTarget(s) != ""
    ensures var t := Downloaded(s, proxyDelivered, directDelivered, saveId);
            var url := DownloadTarget(s);
            && t.download == Button(false, s.download.text)
            && t.requests == s.requests + (if proxyDelivered then [ProxyDownload(url)]
                                           else [ProxyDownload(url), DirectDownload(url)])
            && (t.alerts == s.alerts + [ManualSaveMessage] <==> !proxyDelivered && !directDelivered)
            && (proxyDelivered || directDelivered ==> t.saved == s.saved + [SaveName(saveId)] && t.alerts == s.alerts)
            && Consistent(t) == Consistent(s.(download := t.download))
  {
    var run := DownloadAttempts(DownloadTarget(s), proxyDelivered, directDelivered, saveId);
    assert |s.alerts + [ManualSaveMessage]| != |s.alerts|;
  }

  /** With neither a stored address nor a result image source, the download
      button does nothing. */
  lemma DownloadNeedsTarget(s: PageState, proxyDelivered: bool, directDelivered: bool, saveId: string)
    requires DownloadTarget(s) == ""
    ensures Downloaded(s, proxyDelivered, directDelivered, saveId) == s
  {
  }

  lemma DownloadedKeepsConsistent(s: PageState, proxyDelivered: bool, directDelivered: bool, saveId: string)
    requires Consistent(s)
    ensures Consistent(Downloaded(s, proxyDelivered, directDelivered, saveId))
  {
  }

  // ------------------------------------------------------------ end to end

  /** Uploading a ".png" file stores an address ending in the id and
      ".png"; generating from it, when the first status reply is completed
      with the `mediaUrl` `resultUrl`, displays exactly that address and
      points download at it. */
  lemma PhotoToVectorArt(s: PageState, base: string, id: string, signedUrlReply: Reply, putReply: Reply,
                         submitReply: Reply, respond: nat -> PollReply, resultUrl: string)
    requires Succeeded(signedUrlReply) && Succeeded(putReply) && Succeeded(submitReply)
    requires respond(0).PollAnswered? && respond(0).ok && respond(0).report.status == "completed"
    requires resultUrl != "" && respond(0).report.result == Single(ResultItem(Some(resultUrl), None, None))
    ensures var uploaded := FileSelected(s, FileInfo(base + ".png", "image/png"), id, signedUrlReply, putReply);
            var shown := Generated(uploaded, submitReply, respond);
            && uploaded.currentUploadedUrl == Some(ContentHost + id + ".png")
            && shown.resultSrc == resultUrl && shown.downloadUrl == resultUrl && shown.resultVisible
  {
    var file := FileInfo(base + ".png", "image/png");
    assert StartsWith(file.mimeType, ImagePrefix);
    PngAddress(id, base);
    UploadSucceeds(s, file, id, signedUrlReply, putReply);
    var uploaded := FileSelected(s, file, id, signedUrlReply, putReply);
    ExtractionPrecedence(ResultItem(Some(resultUrl), None, None));
    GenerateCompletesAtFirstEnding(uploaded, submitReply, respond, 0);
  }
}
