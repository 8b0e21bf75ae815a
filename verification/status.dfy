/** `updateStatus`: how a status text drives the generate button. */
module Status {
  import opened Text

  /** A button's `disabled` flag and its `textContent`. */
  datatype Button = Button(disabled: bool, text: string)

  const DefaultLabel: string := "Generate Vector Art"
  const AgainLabel: string := "Generate Again"

  // The status texts the page passes to `updateStatus`.
  const UploadingText: string := "UPLOADING..."
  const ReadyText: string := "READY"
  const SubmittingText: string := "SUBMITTING JOB..."
  const QueuedText: string := "JOB QUEUED..."
  const CompleteText: string := "COMPLETE"
  const ErrorText: string := "ERROR"

  /** The text shown after the `n`-th status request reported the job still running. */
  function ProgressLabel(n: nat): string {
    "PROCESSING... (" + NatToString(n) + ")"
  }

  /** The progress texts for the first `n` unfinished polls, in order. */
  function ProgressLabels(n: nat): (labels: seq<string>)
    ensures |labels| == n
  {
    seq(n, i requires 0 <= i => ProgressLabel(i + 1))
  }

  /** The `i`-th progress text (from 0) is the one for poll `i + 1`. */
  lemma ProgressLabelsAt(n: nat, i: nat)
    requires i < n
    ensures ProgressLabels(n)[i] == ProgressLabel(i + 1)
  {
  }

  /** A text that marks work in progress. */
  predicate IsBusy(text: string) {
    Includes(text, "PROCESSING") || Includes(text, "UPLOADING") ||
    Includes(text, "SUBMITTING") || Includes(text, "QUEUED")
  }

  /** The generate button after `updateStatus(text)`: busy texts disable it
      and become its label, "READY" and "COMPLETE" enable it with their
      labels, and any other text leaves it as it was. */
  function UpdateStatus(b: Button, text: string): Button {
    if IsBusy(text) then Button(true, text)
    else if text == ReadyText then Button(false, DefaultLabel)
    else if text == CompleteText then Button(false, AgainLabel)
    else b
  }

  /** The generate button after `updateStatus` is called with each text in turn. */
  function ApplyStatuses(b: Button, texts: seq<string>): Button
    decreases |texts|
  {
    if texts == [] then b
    else UpdateStatus(ApplyStatuses(b, texts[..|texts| - 1]), texts[|texts| - 1])
  }

  /** The texts the page uses classify as intended: the in-progress ones
      disable the button, while "READY", "COMPLETE" and "ERROR" contain none
      of the busy words, so they reach the later branches. */
  lemma PageTextsClassified(n: nat)
    ensures IsBusy(UploadingText) && IsBusy(SubmittingText) && IsBusy(QueuedText) && IsBusy(ProgressLabel(n))
    ensures !IsBusy(ReadyText) && !IsBusy(CompleteText) && !IsBusy(ErrorText)
  {
    assert OccursAt(UploadingText, "UPLOADING", 0);
    assert OccursAt(SubmittingText, "SUBMITTING", 0);
    assert OccursAt(QueuedText, "QUEUED", 4);
    assert OccursAt(ProgressLabel(n), "PROCESSING", 0);
    forall i | 0 <= i <= |CompleteText| - 6 ensures !OccursAt(CompleteText, "QUEUED", i) {
      assert CompleteText[i] != 'Q';
    }
  }

  /** The in-progress texts disable the button and become its label. */
  lemma UpdateStatusOnBusyTexts(b: Button, n: nat)
    ensures UpdateStatus(b, UploadingText) == Button(true, UploadingText)
    ensures UpdateStatus(b, SubmittingText) == Button(true, SubmittingText)
    ensures UpdateStatus(b, QueuedText) == Button(true, QueuedText)
    ensures UpdateStatus(b, ProgressLabel(n)) == Button(true, ProgressLabel(n))
  {
    PageTextsClassified(n);
  }

  /** `updateStatus("ERROR")` leaves the button untouched; "READY" and
      "COMPLETE" enable it whatever it was. */
  lemma UpdateStatusOnOutcomeTexts(b: Button)
    ensures UpdateStatus(b, ErrorText) == b
    ensures UpdateStatus(b, ReadyText) == Button(false, DefaultLabel)
    ensures UpdateStatus(b, CompleteText) == Button(false, AgainLabel)
  {
    PageTextsClassified(0);
  }

  /** One text is one `updateStatus` call. */
  lemma ApplyOneStatus(b: Button, text: string)
    ensures ApplyStatuses(b, [text]) == UpdateStatus(b, text)
  {
    assert [text][..0] == [];
  }

  /** Two texts in a row are two `updateStatus` calls. */
  lemma ApplyTwoStatuses(b: Button, first: string, second: string)
    ensures ApplyStatuses(b, [first, second]) == UpdateStatus(UpdateStatus(b, first), second)
  {
    assert [first, second][..1] == [first];
    ApplyOneStatus(b, first);
  }

  /** One more text is one more `updateStatus` call. */
  lemma ApplyStatusesSnoc(b: Button, texts: seq<string>, text: string)
    ensures ApplyStatuses(b, texts + [text]) == UpdateStatus(ApplyStatuses(b, texts), text)
  {
    assert (texts + [text])[..|texts|] == texts;
  }

  /** Repeating a status text changes nothing further. */
  lemma UpdateStatusIdempotent(b: Button, text: string)
    ensures UpdateStatus(UpdateStatus(b, text), text) == UpdateStatus(b, text)
  {
  }

  /** Applying two runs of texts is applying their concatenation. */
  lemma {:induction false} ApplyStatusesAppend(b: Button, xs: seq<string>, ys: seq<string>)
    ensures ApplyStatuses(b, xs + ys) == ApplyStatuses(ApplyStatuses(b, xs), ys)
    decreases |ys|
  {
    if ys == [] {
      assert xs + ys == xs;
    } else {
      var ys' := ys[..|ys| - 1];
      ApplyStatusesAppend(b, xs, ys');
      assert (xs + ys)[..|xs + ys| - 1] == xs + ys';
    }
  }

  /** After `n` >= 1 unfinished polls the button is disabled and labelled
      with the last progress text, whatever it was before. */
  lemma {:induction false} ProgressKeepsButtonDisabled(b: Button, n: nat)
    requires n >= 1
    ensures ApplyStatuses(b, ProgressLabels(n)) == Button(true, ProgressLabel(n))
  {
    UpdateStatusOnBusyTexts(ApplyStatuses(b, ProgressLabels(n)[..n - 1]), n);
  }
}
