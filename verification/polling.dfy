/** `pollJobStatus`: the bounded loop that waits for a submitted job. */
module Polling {
  import opened Wrappers
  import opened Text
  import opened Extraction
  import opened Status

  const MaxPolls: nat := 60
  const TimeoutMessage: string := "Job timed out"
  const DefaultFailureMessage: string := "Job processing failed"
  const StatusContext: string := "Failed to check status: "

  /** The parsed body of one status reply. */
  datatype JobReport = JobReport(status: string, error: Option<string>, result: ResultField)

  /** How one status request ends: the fetch rejects, or a response arrives
      with its `ok` flag, `statusText` and (when ok) parsed report. */
  datatype PollReply = PollRejected(reason: string) | PollAnswered(ok: bool, statusText: string, report: JobReport)

  /** What the loop returns (the completed report) or throws (a message). */
  datatype PollOutcome = Completed(report: JobReport) | Failed(message: string)

  /** A reply after which the loop does not poll again. */
  predicate EndsPolling(reply: PollReply) {
    match reply
    case PollRejected(_) => true
    case PollAnswered(ok, _, report) =>
      !ok || report.status == "completed" || report.status == "failed" || report.status == "error"
  }

  /** `data.error || 'Job processing failed'` */
  function FailureMessage(error: Option<string>): string {
    if Truthy(error) then error.value else DefaultFailureMessage
  }

  /** What the loop does with a reply that ends it. */
  function Verdict(reply: PollReply): PollOutcome
    requires EndsPolling(reply)
  {
    match reply
    case PollRejected(reason) => Failed(reason)
    case PollAnswered(ok, statusText, report) =>
      if !ok then Failed(StatusContext + statusText)
      else if report.status == "completed" then Completed(report)
      else Failed(FailureMessage(report.error))
  }

  /** The index of the first reply at or after `from` that ends polling,
      or `MaxPolls` when none of the replies before it does. */
  function FirstEnding(respond: nat -> PollReply, from: nat): (k: nat)
    requires from <= MaxPolls
    ensures from <= k <= MaxPolls
    ensures k < MaxPolls ==> EndsPolling(respond(k))
    decreases MaxPolls - from
  {
    if from == MaxPolls || EndsPolling(respond(from)) then from else FirstEnding(respond, from + 1)
  }

  /** The search finds the first ending reply: none before the index it
      returns ends polling. */
  lemma {:induction false} FirstEndingIsFirst(respond: nat -> PollReply, from: nat)
    requires from <= MaxPolls
    ensures forall j :: from <= j < FirstEnding(respond, from) ==> !EndsPolling(respond(j))
    decreases MaxPolls - from
  {
    if from < MaxPolls && !EndsPolling(respond(from)) {
      FirstEndingIsFirst(respond, from + 1);
    }
  }

  /** A reply that does not end polling passes the search on to the next one. */
  lemma FirstEndingSkips(respond: nat -> PollReply, from: nat)
    requires from < MaxPolls && !EndsPolling(respond(from))
    ensures FirstEnding(respond, from) == FirstEnding(respond, from + 1)
  {
  }

  /** What a run of the loop produced: its outcome, how many status requests
      it made, and the progress texts it showed, in order. */
  datatype PollRun = PollRun(outcome: PollOutcome, requests: nat, labels: seq<string>)

  /** The loop's result when the `i`-th status request (from 0) is answered
      by `respond(i)`: the first reply that ends polling decides the outcome;
      without one among the first `MaxPolls`, the job times out. */
  function PollSpec(respond: nat -> PollReply): (run: PollRun)
    ensures 1 <= run.requests <= MaxPolls
  {
    var k := FirstEnding(respond, 0);
    if k < MaxPolls then PollRun(Verdict(respond(k)), k + 1, ProgressLabels(k))
    else PollRun(Failed(TimeoutMessage), k, ProgressLabels(k))
  }

  /** Helper for the loop: when the search from `k` ends at `k` and agrees
      with the search from 0, the loop's result is decided by reply `k`. */
  lemma PollSpecEndsAt(respond: nat -> PollReply, k: nat)
    requires k < MaxPolls && EndsPolling(respond(k)) && FirstEnding(respond, k) == FirstEnding(respond, 0)
    ensures PollSpec(respond) == PollRun(Verdict(respond(k)), k + 1, ProgressLabels(k))
  {
  }

  /** Helper for the loop: when the search from `MaxPolls` agrees with the
      search from 0, the job timed out. */
  lemma PollSpecTimesOut(respond: nat -> PollReply)
    requires FirstEnding(respond, MaxPolls) == FirstEnding(respond, 0)
    ensures PollSpec(respond) == PollRun(Failed(TimeoutMessage), MaxPolls, ProgressLabels(MaxPolls))
  {
  }

  /** If none of the first 60 replies ends polling, the loop fails with
      "Job timed out" after exactly 60 requests, having shown all 60 progress
      texts; and only then does it show the 60th. */
  lemma PollTimesOut(respond: nat -> PollReply)
    ensures (forall j :: 0 <= j < MaxPolls ==> !EndsPolling(respond(j))) <==>
            |PollSpec(respond).labels| == MaxPolls
    ensures (forall j :: 0 <= j < MaxPolls ==> !EndsPolling(respond(j))) ==>
            PollSpec(respond) == PollRun(Failed(TimeoutMessage), MaxPolls, ProgressLabels(MaxPolls))
  {
    FirstEndingIsFirst(respond, 0);
  }

  /** The reply at index `k` < 60 that first ends polling decides the outcome,
      after exactly k + 1 requests and the progress texts for polls 1..k. */
  lemma PollStopsAtFirstEnding(respond: nat -> PollReply, k: nat)
    requires k < MaxPolls && EndsPolling(respond(k))
    requires forall j :: 0 <= j < k ==> !EndsPolling(respond(j))
    ensures PollSpec(respond) == PollRun(Verdict(respond(k)), k + 1, ProgressLabels(k))
  {
    FirstEndingIsFirst(respond, 0);
  }

  /** What a first ending reply yields: a completed report is returned
      as it is; a failed or error report throws its own non-empty error text,
      else "Job processing failed"; a non-ok response throws
      "Failed to check status: " and the status text, with no retry. */
  lemma VerdictMessages(reply: PollReply)
    requires EndsPolling(reply)
    ensures reply.PollAnswered? && reply.ok && reply.report.status == "completed" ==>
              Verdict(reply) == Completed(reply.report)
    ensures reply.PollAnswered? && reply.ok && reply.report.status in {"failed", "error"} ==>
              Verdict(reply) == Failed(if Truthy(reply.report.error) then reply.report.error.value else DefaultFailureMessage)
    ensures reply.PollAnswered? && !reply.ok ==> Verdict(reply) == Failed(StatusContext + reply.statusText)
    ensures reply.PollRejected? ==> Verdict(reply) == Failed(reply.reason)
  {
  }
}
