/** The remote calls the page makes, seen from outside: what each request
    asks for, how each reply can turn out, and the upload step built on them. */
module Api {
  import opened Wrappers
  import Text
  import opened Naming

  const UserId: string := "DObRu1vyStbUynoQmTcHBlhs55z2"
  const SignedUrlContext: string := "Failed to get signed URL: "
  const PutContext: string := "Failed to upload file: "
  const SubmitContext: string := "Failed to submit job: "

  /** How one `fetch` ends: the promise rejects (carrying the error's
      message), or a response arrives with its `ok` flag, `statusText`
      and body (the signed URL text, or the submitted job's id). */
  datatype Reply = Rejected(reason: string) | Answered(ok: bool, statusText: string, body: string)

  predicate Succeeded(reply: Reply) {
    reply.Answered? && reply.ok
  }

  /** The message of the error thrown for a reply that did not succeed. */
  function ErrorMessage(context: string, reply: Reply): string
    requires !Succeeded(reply)
  {
    match reply
    case Rejected(reason) => reason
    case Answered(_, statusText, _) => context + statusText
  }

  /** The fixed-shape body POSTed to start a vectorizing job. */
  datatype JobRequest = JobRequest(
    model: string, toolType: string, effectId: string, imageUrl: string,
    userId: string, removeWatermark: bool, isPrivate: bool)

  function JobFor(imageUrl: string): JobRequest {
    JobRequest("image-effects", "image-effects", "photoToVectorArt", imageUrl, UserId, true, true)
  }

  /** One network request the page issues. */
  datatype Request =
    | GetUploadUrl(fileName: string)
    | PutFile(signedUrl: string, contentType: string)
    | SubmitJob(job: JobRequest)
    | PollStatus(userId: string, jobId: string)
    | ProxyDownload(assetUrl: string)
    | DirectDownload(assetUrl: string)

  /** The selected file: its name and MIME type. */
  datatype FileInfo = FileInfo(name: string, mimeType: string)

  /** The requests an upload made, and the public URL or the error it threw. */
  datatype UploadRun = UploadRun(requests: seq<Request>, outcome: Result<string>)

  /** `uploadFile(file)` with the generated id and the two replies as inputs:
      ask for a signed URL for the generated name, PUT the file there, and
      return the predictable public address. */
  function UploadFile(file: FileInfo, id: string, signedUrlReply: Reply, putReply: Reply): UploadRun {
    var fileName := FileName(id, file.name);
    var asked := [GetUploadUrl(fileName)];
    if !Succeeded(signedUrlReply) then
      UploadRun(asked, Err(ErrorMessage(SignedUrlContext, signedUrlReply)))
    else
      var sent := asked + [PutFile(signedUrlReply.body, file.mimeType)];
      if !Succeeded(putReply) then UploadRun(sent, Err(ErrorMessage(PutContext, putReply)))
      else UploadRun(sent, Ok(PublicUrl(fileName)))
  }

  /** The upload succeeds exactly when both replies do, and then yields the
      public address of `<id>.<extension>`; it always asks for a signed URL
      for that name first, sends the file only once that request succeeded,
      and reports which step failed with the reply's status text. */
  lemma UploadFileOutcome(file: FileInfo, id: string, signedUrlReply: Reply, putReply: Reply)
    ensures var run := UploadFile(file, id, signedUrlReply, putReply);
            && (run.outcome.Ok? <==> Succeeded(signedUrlReply) && Succeeded(putReply))
            && (run.outcome.Ok? ==> run.outcome.value == PublicUrl(FileName(id, file.name)))
            && (!Succeeded(signedUrlReply) ==>
                  run == UploadRun([GetUploadUrl(FileName(id, file.name))], Err(ErrorMessage(SignedUrlContext, signedUrlReply))))
            && (Succeeded(signedUrlReply) ==>
                  run.requests == [GetUploadUrl(FileName(id, file.name)), PutFile(signedUrlReply.body, file.mimeType)])
            && (Succeeded(signedUrlReply) && !Succeeded(putReply) ==>
                  run.outcome == Err(ErrorMessage(PutContext, putReply)))
  {
  }

  /** A successful upload's address is the content host followed by the id,
      a dot and the original extension, and no other dot. */
  lemma UploadedAddress(file: FileInfo, id: string, signedUrlReply: Reply, putReply: Reply)
    requires IsNanoId(id, NanoIdLength)
    requires Succeeded(signedUrlReply) && Succeeded(putReply)
    ensures var url := UploadFile(file, id, signedUrlReply, putReply).outcome.value;
            |url| > |ContentHost| && url[..|ContentHost|] == ContentHost &&
            Text.Split(url[|ContentHost|..], '.') == [id, Extension(file.name)]
  {
    UploadFileOutcome(file, id, signedUrlReply, putReply);
    var url := UploadFile(file, id, signedUrlReply, putReply).outcome.value;
    assert url[|ContentHost|..] == FileName(id, file.name);
    FileNameRoundTrip(id, file.name);
  }
}
