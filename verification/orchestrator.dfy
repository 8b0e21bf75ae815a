/** The page controller: the handlers of script.js as methods that update
    the page's fields step by step, each proved to do exactly what the
    matching transition of module Page says. */
module Orchestrator {
  import opened Wrappers
  import opened Text
  import opened Naming
  import opened Api
  import opened Extraction
  import opened Status
  import opened Polling
  import opened Download
  import opened Page

  class Controller {
    var currentUploadedUrl: Option<string>
    var generate: Button
    var download: Button
    var downloadUrl: string
    var preview: Option<string>
    var resultSrc: string
    var resultVisible: bool
    var statusText: string
    var alerts: seq<string>
    var saved: seq<string>
    var requests: seq<Request>

    /** The controller's fields as a page state. */
    ghost function Page(): PageState
      reads this
    {
      PageState(currentUploadedUrl, generate, download, downloadUrl, preview, resultSrc,
                resultVisible, statusText, alerts, saved, requests)
    }

    ghost predicate Valid()
      reads this
    {
      Consistent(Page())
    }

    /** A fresh page: nothing uploaded, both buttons disabled under the texts
        the markup gives them, no result and nothing logged. */
    constructor(generateText: string, downloadText: string)
      ensures Valid()
      ensures Page() == PageState(None, Button(true, generateText), Button(true, downloadText), "",
                                  None, "", false, "", [], [], [])
    {
      currentUploadedUrl := None;
      generate := Button(true, generateText);
      download := Button(true, downloadText);
      downloadUrl := "";
      preview := None;
      resultSrc := "";
      resultVisible := false;
      statusText := "";
      alerts := [];
      saved := [];
      requests := [];
    }

    /** `updateStatus(text)`: show the text and adjust the generate button. */
    method ShowStatus(text: string)
      modifies this`statusText, this`generate
      ensures statusText == text && generate == UpdateStatus(old(generate), text)
    {
      statusText := text;
      generate := UpdateStatus(generate, text);
    }

    /** `handleFileSelect(file)`; `draws` are the `Math.random()` results the
        upload's id is built from. */
    method HandleFileSelect(file: FileInfo, draws: seq<real>, signedUrlReply: Reply, putReply: Reply)
      requires Valid()
      requires |draws| == NanoIdLength && AreRandomDraws(draws)
      modifies this
      ensures Valid()
      ensures Page() == FileSelected(old(Page()), file, DrawnId(draws), signedUrlReply, putReply)
    {
      ghost var s := Page();
      if !StartsWith(file.mimeType, ImagePrefix) {
        alerts := alerts + [NotAnImageMessage];
        return;
      }
      StartUpload();
      var id := GenerateNanoId(NanoIdLength, draws);
      var run := UploadFile(file, id, signedUrlReply, putReply);
      requests := requests + run.requests;
      FinishUpload(run.outcome);
      FileSelectedKeepsConsistent(s, file, id, signedUrlReply, putReply);
    }

    /** The `try` block's first steps in `handleFileSelect`. */
    method StartUpload()
      modifies this
      ensures Page() == UploadStarted(old(Page()))
    {
      ShowStatus(UploadingText);
      resultVisible := false;
      download := download.(disabled := true);
    }

    /** The rest of `handleFileSelect` once `uploadFile` has settled with
        `outcome`: the success path, or the `catch` branch. */
    method FinishUpload(outcome: Result<string>)
      modifies this
      ensures Page() == UploadFinished(old(Page()), outcome)
    {
      match outcome {
        case Ok(url) =>
          currentUploadedUrl := Some(url);
          preview := Some(url);
          ShowStatus(ReadyText);
          generate := generate.(disabled := false);
        case Err(message) =>
          ShowStatus(ErrorText);
          alerts := alerts + [ErrorAlert(message)];
      }
    }

    /** `pollJobStatus(jobId)`: ask for the job's status up to `MaxPolls`
        times, the `i`-th reply being `respond(i)`, showing the progress text
        "PROCESSING... (n)" after the n-th reply when it does not end the
        loop. */
    method PollJobStatus(jobId: string, respond: nat -> PollReply) returns (outcome: PollOutcome)
      modifies this`requests, this`generate, this`statusText
      ensures var run := PollSpec(respond);
              var n := |run.labels|;
              && outcome == run.outcome
              && requests == old(requests) + PollRequests(jobId, run.requests)
              && (n == 0 ==> generate == old(generate) && statusText == old(statusText))
              && (n > 0 ==> generate == Button(true, ProgressLabel(n)) && statusText == ProgressLabel(n))
    {
      var polls := 0;
      while polls < MaxPolls
        invariant polls <= MaxPolls
        invariant FirstEnding(respond, polls) == FirstEnding(respond, 0)
        invariant requests == old(requests) + PollRequests(jobId, polls)
        invariant polls == 0 ==> generate == old(generate) && statusText == old(statusText)
        invariant polls > 0 ==> generate == Button(true, ProgressLabel(polls)) && statusText == ProgressLabel(polls)
      {
        var reply := respond(polls);
        requests := requests + [PollStatus(UserId, jobId)];
        PollRequestsSnoc(old(requests), jobId, polls);
        if EndsPolling(reply) {
          PollSpecEndsAt(respond, polls);
          return Verdict(reply);
        }
        FirstEndingSkips(respond, polls);
        ShowProgress(polls + 1);
        polls := polls + 1;
      }
      PollSpecTimesOut(respond);
      return Failed(TimeoutMessage);
    }

    /** `updateStatus` with the `n`-th progress text, a busy text. */
    method ShowProgress(n: nat)
      modifies this`statusText, this`generate
      ensures generate == Button(true, ProgressLabel(n)) && statusText == ProgressLabel(n)
    {
      UpdateStatusOnBusyTexts(generate, n);
      ShowStatus(ProgressLabel(n));
    }

    /** The `catch` branch of `handleGenerate`: "ERROR", the alert, and
        generate enabled again. */
    method FailGenerate(message: string)
      modifies this
      ensures Page() == AfterGenerate(old(Page()), GenerateRun([], [ErrorText], Err(message)))
    {
      ghost var s := Page();
      ShowStatus(ErrorText);
      alerts := alerts + [ErrorAlert(message)];
      generate := generate.(disabled := false);
      ApplyOneStatus(s.generate, ErrorText);
      assert s.requests + [] == s.requests;
    }

    /** The end of a successful `handleGenerate`: the result image shows
        `url`, download points at it and is enabled, and "COMPLETE". */
    method ShowResult(url: string)
      modifies this
      ensures Page() == AfterGenerate(old(Page()), GenerateRun([], [CompleteText], Ok(url)))
    {
      ghost var s := Page();
      resultSrc := url;
      resultVisible := true;
      downloadUrl := url;
      download := download.(disabled := false);
      ShowStatus(CompleteText);
      ApplyOneStatus(s.generate, CompleteText);
      assert s.requests + [] == s.requests;
    }

    /** "JOB QUEUED..." and then `pollJobStatus(jobId)`. */
    method QueueAndPoll(jobId: string, respond: nat -> PollReply) returns (outcome: PollOutcome)
      modifies this
      ensures outcome == PollSpec(respond).outcome
      ensures Page() == Polled(old(Page()), jobId, respond)
    {
      ghost var s := Page();
      ShowStatus(QueuedText);
      UpdateStatusOnBusyTexts(s.generate, 0);
      outcome := PollJobStatus(jobId, respond);
      ghost var labels := PollSpec(respond).labels;
      assert labels == ProgressLabels(|labels|);
      ButtonWhilePolling(s.generate, |labels|);
    }

    /** The part of `handleGenerate` after the job `jobId` is accepted:
        "JOB QUEUED...", polling, and the result or the error. */
    method AwaitResult(jobId: string, respond: nat -> PollReply)
      modifies this
      ensures Page() == AfterGenerate(old(Page()), AwaitFlow(jobId, respond))
    {
      ghost var s := Page();
      var outcome := QueueAndPoll(jobId, respond);
      ghost var poll := PollSpec(respond);
      ghost var shown := [QueuedText] + poll.labels;
      ghost var last: GenerateRun;
      match outcome {
        case Failed(message) =>
          last := GenerateRun([], [ErrorText], Err(message));
          FailGenerate(message);
        case Completed(report) =>
          var url := ExtractResultUrl(report.result);
          if url.None? {
            last := GenerateRun([], [ErrorText], Err(NoResultMessage));
            FailGenerate(NoResultMessage);
          } else {
            last := GenerateRun([], [CompleteText], Ok(url.value));
            ShowResult(url.value);
          }
      }
      AfterGenerateSteps(s, PollRequests(jobId, poll.requests), shown, shown[|shown| - 1], last);
      assert PollRequests(jobId, poll.requests) + [] == PollRequests(jobId, poll.requests);
    }

    /** `handleGenerate()`, with the submit reply and the status replies. */
    method HandleGenerate(submitReply: Reply, respond: nat -> PollReply)
      requires Valid()
      modifies this
      ensures Valid()
      ensures Page() == Generated(old(Page()), submitReply, respond)
    {
      if !Truthy(currentUploadedUrl) {
        return;
      }
      ghost var s := Page();
      var imageUrl := currentUploadedUrl.value;
      ShowStatus(SubmittingText);
      UpdateStatusOnBusyTexts(s.generate, 0);
      generate := generate.(disabled := true);
      requests := requests + [SubmitJob(JobFor(imageUrl))];
      ApplyOneStatus(s.generate, SubmittingText);
      assert Page() == s.(requests := s.requests + [SubmitJob(JobFor(imageUrl))],
                          generate := ApplyStatuses(s.generate, [SubmittingText]), statusText := SubmittingText);
      ghost var rest: GenerateRun;
      if !Succeeded(submitReply) {
        rest := GenerateRun([], [ErrorText], Err(ErrorMessage(SubmitContext, submitReply)));
        FailGenerate(ErrorMessage(SubmitContext, submitReply));
      } else {
        rest := AwaitFlow(submitReply.body, respond);
        AwaitResult(submitReply.body, respond);
      }
      AfterGenerateSteps(s, [SubmitJob(JobFor(imageUrl))], [SubmittingText], SubmittingText, rest);
      GeneratedKeepsConsistent(s, submitReply, respond);
    }

    /** The reset button's handler. */
    method Reset()
      requires Valid()
      modifies this
      ensures Valid()
      ensures Page() == ResetPage(old(Page()))
    {
      currentUploadedUrl := None;
      preview := None;
      generate := Button(true, DefaultLabel);
      resultSrc := "";
      resultVisible := false;
      download := download.(disabled := true);
      statusText := "";
    }

    /** The `try` blocks of the download handler for the address `url`. */
    method FetchResult(url: string, proxyDelivered: bool, directDelivered: bool, draws: seq<real>)
      requires |draws| == SaveIdLength && AreRandomDraws(draws)
      modifies this
      ensures Page() == AfterDownload(old(Page()), DownloadAttempts(url, proxyDelivered, directDelivered, DrawnId(draws)))
    {
      ghost var s := Page();
      requests := requests + [ProxyDownload(url)];
      if proxyDelivered {
        var id := GenerateNanoId(SaveIdLength, draws);
        saved := saved + [SaveName(id)];
      } else {
        requests := requests + [DirectDownload(url)];
        assert requests == s.requests + [ProxyDownload(url), DirectDownload(url)];
        if directDelivered {
          var id := GenerateNanoId(SaveIdLength, draws);
          saved := saved + [SaveName(id)];
        } else {
          alerts := alerts + [ManualSaveMessage];
        }
      }
    }

    /** The download button's handler: `proxyDelivered` and `directDelivered`
        say whether each strategy got the image's bytes, and `draws` are the
        `Math.random()` results the saved file's name is built from. */
    method HandleDownload(proxyDelivered: bool, directDelivered: bool, draws: seq<real>)
      requires Valid()
      requires |draws| == SaveIdLength && AreRandomDraws(draws)
      modifies this
      ensures Valid()
      ensures Page() == Downloaded(old(Page()), proxyDelivered, directDelivered, DrawnId(draws))
    {
      var url := if downloadUrl != "" then downloadUrl else resultSrc;
      if url == "" {
        return;
      }
      var originalText := download.text;
      download := Button(true, DownloadingText);
      FetchResult(url, proxyDelivered, directDelivered, draws);
      download := Button(false, originalText);
    }
  }
}
