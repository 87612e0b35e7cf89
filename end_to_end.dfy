/**
 * How the components meet: the job the upload endpoint queues as seen by the
 * worker, the upload reply as seen by the upload panel, and the chat request
 * the chat panel sends as seen by the chat endpoint.
 */
module EndToEnd {
  import opened Wrappers
  import opened Text
  import Server
  import Ingestion
  import Chat
  import FileUpload

  /** The fields the worker reads from a queued `FileUploadJob` after the
      JSON round trip: it has a `filename` but no `path`. */
  function WorkerPayload(job: Server.FileUploadJob): (p: Ingestion.JobPayload)
    ensures p.filename == Some(job.filename) && p.path.None?
  {
    Ingestion.JobPayload(Some(job.filename), None)
  }

  /** Every job the upload endpoint queues fails in the worker at the file
      check, whatever the services would have done. */
  lemma QueuedUploadsFail(bodyUserId: Option<string>, file: Option<Server.StoredFile>, now: nat, suffix: string,
                          queueError: Option<Thrown>, svc: Ingestion.Services)
    requires Server.UploadPdf(bodyUserId, file, now, suffix, queueError).queued.Some?
    ensures var job := Server.UploadPdf(bodyUserId, file, now, suffix, queueError).queued.value;
            Ingestion.JobResult(Ok(WorkerPayload(job.payload)), svc) == Ingestion.Failed("File does not exist at path: undefined")
  {
  }

  /** What the upload panel makes of the endpoint's JSON reply. */
  function UploadReplyOf(response: Server.UploadResponse): (r: FileUpload.UploadReply)
    ensures response.UploadStarted? <==> r.Accepted?
    ensures response.UploadStarted? ==> r.jobId == Some(response.jobId)
    ensures response.UploadRejected? ==> r == FileUpload.Refused(response.status, Some(response.error))
  {
    match response
    case UploadStarted(_, _, jobId, _, _, _) => FileUpload.Accepted(Some(jobId))
    case UploadRejected(status, error, _) => FileUpload.Refused(status, Some(error))
  }

  /** A signed-in upload that the server queues tracks the server's job id,
      which starts with the user's id; one the server refuses shows the
      server's error text. */
  lemma UploadPanelFollowsServer(s: FileUpload.Panel, userId: string, picked: FileUpload.PickedFile, stored: Server.StoredFile,
                                 now: nat, suffix: string, queueError: Option<Thrown>, clientNow: int)
    requires userId != ""
    ensures var out := Server.UploadPdf(Some(userId), Some(stored), now, suffix, queueError);
            var t := FileUpload.Uploaded(s, Some(userId), picked, UploadReplyOf(out.response), clientNow);
            && (queueError.None? ==>
                  && t.status == FileUpload.Processing
                  && t.jobId == Some(out.queued.value.jobId)
                  && StartsWith(t.jobId.value, userId + "_"))
            && (queueError.Some? ==>
                  && t.status == FileUpload.Error
                  && t.errorMessage == Server.UploadFailedMessage
                  && t.jobId == s.jobId)
  {
  }

  /** What the chat panel reads from a retrieved document: its content and
      the `source`, `pdf` and `filename` metadata entries. */
  function ClientDoc(d: Ingestion.Document): (c: Chat.Doc)
    ensures c.pageContent == Some(d.pageContent) && c.metadata.Some?
  {
    var lookup := (key: string) => if key in d.metadata then Some(d.metadata[key]) else None;
    Chat.Doc(Some(d.pageContent), Some(Chat.Metadata(None, lookup("source"), lookup("pdf"), lookup("filename"))))
  }

  /** What the chat panel makes of the endpoint's JSON reply: an error body
      has neither `message` nor `docs`. */
  function ChatReplyOf(response: Server.ChatResponse): (r: Chat.Reply)
    ensures response.ChatRejected? ==> r == Chat.Replied(None, None)
    ensures response.ChatAnswer? ==>
      r.Replied? && r.message == Some(response.message) && r.docs.Some? && |r.docs.value| == |response.docs|
  {
    match response
    case ChatRejected(_, _, _) => Chat.Replied(None, None)
    case ChatAnswer(text, docs) =>
      Chat.Replied(Some(text), Some(seq(|docs|, i requires 0 <= i < |docs| => ClientDoc(docs[i]))))
  }

  /** The chat panel's request carries no user id, so the endpoint refuses
      every one of them before looking at the message. */
  lemma PanelChatIsRefused(message: string, svc: Server.ChatServices)
    ensures var request := Chat.ChatRequest(Some(message), None);
            Server.Chat(request.message, request.userId, svc) == Server.ChatRejected(400, Server.MissingUserMessage, None)
  {
  }

  /** The assistant message for such a reply has no content and no
      documents, so it renders nothing. */
  lemma RefusedChatRendersNothing(message: string, svc: Server.ChatServices)
    ensures var reply := ChatReplyOf(Server.Chat(Some(message), None, svc));
            var m := Chat.AssistantMessage(reply);
            && m == Chat.Message(Chat.Assistant, None, None)
            && Chat.RenderMessageContent(m.content).None?
  {
  }

  /** A send from the chat panel against the endpoint: a non-blank message
      ends the log with an empty assistant message. */
  method SendToServer(panel: Chat.ChatPanel, svc: Server.ChatServices)
    modifies panel
    ensures !IsBlank(old(panel.input)) ==>
      panel.messages == old(panel.messages) + [Chat.Message(Chat.User, Some(old(panel.input)), None), Chat.Message(Chat.Assistant, None, None)]
    ensures IsBlank(old(panel.input)) ==> panel.messages == old(panel.messages)
  {
    var reply := ChatReplyOf(Server.Chat(Some(panel.input), None, svc));
    var sent := panel.SendChatMessage(reply);
  }
}
