/**
 * The request logic of the HTTP server: the upload file filter, the
 * `/upload/pdf` validation with job id and payload construction, the
 * Socket.IO room routing of progress events, and the `/chat` validation,
 * per-user collection naming, prompt building and error classification.
 *
 * The clock and the random suffix are inputs; the job queue, the vector store
 * retriever and the language model are oracles.
 */
module Server {
  import opened Wrappers
  import opened Text
  import Ingestion

  // ---------------------------------------------------------------------------
  // Upload

  const PdfMimeType: string := "application/pdf"
  const NotPdfMessage: string := "Only PDF files are allowed!"
  const QueueJobName: string := "file-ready"
  const MissingUserMessage: string := "User ID is required"
  const MissingFileMessage: string := "No file uploaded"
  const UploadFailedMessage: string := "Upload failed"
  const UploadStartedMessage: string := "upload started"
  const UnknownErrorMessage: string := "Unknown error"

  /** `error instanceof Error ? error.message : 'Unknown error'` */
  function ErrorMessage(e: Thrown): string {
    match e
    case ErrorObject(m) => m
    case NonError => UnknownErrorMessage
  }

  /** The multer callback: accept the file, or reject it with an error. */
  function FileFilter(mimetype: string): (r: Result<bool, string>)
    ensures r == Ok(true) <==> mimetype == PdfMimeType
    ensures r.Err? <==> mimetype != PdfMimeType
    ensures r.Err? ==> r.error == NotPdfMessage
  {
    if mimetype == PdfMimeType then Ok(true) else Err(NotPdfMessage)
  }

  /** The file multer stored: `originalname`, the Cloudinary URL in `path` and
      the Cloudinary public id in `filename`. */
  datatype StoredFile = StoredFile(originalname: string, path: string, filename: string)

  /** The `FileUploadJob` record queued for the worker. */
  datatype FileUploadJob = FileUploadJob(filename: string, cloudinaryUrl: string, cloudinaryPublicId: string, userId: string, jobId: string)

  /** A call `queue.add(name, payload, { jobId })`. */
  datatype QueuedJob = QueuedJob(name: string, payload: FileUploadJob, jobId: string)

  datatype UploadResponse =
    | UploadRejected(status: nat, error: string, details: Option<string>)
    | UploadStarted(message: string, userId: string, jobId: string, fileUrl: string, cloudinaryUrl: string, filename: string)

  /** The handler's answer and the job it tried to queue, if it got that far. */
  datatype UploadOutcome = UploadOutcome(response: UploadResponse, queued: Option<QueuedJob>)

  /** `${userId}_${Date.now()}_${suffix}` */
  function JobId(userId: string, now: nat, suffix: string): string {
    userId + "_" + NatToString(now) + "_" + suffix
  }

  /**
   * `POST /upload/pdf`. `bodyUserId` is `req.body.userId`, `file` is
   * `req.file`, `now` and `suffix` stand for `Date.now()` and the random
   * base-36 suffix, and `queueError` is what `queue.add` throws, if anything.
   */
  function UploadPdf(bodyUserId: Option<string>, file: Option<StoredFile>, now: nat, suffix: string, queueError: Option<Thrown>): (r: UploadOutcome)
    ensures !Truthy(bodyUserId) ==> r == UploadOutcome(UploadRejected(400, MissingUserMessage, None), None)
    ensures Truthy(bodyUserId) && file.None? ==> r == UploadOutcome(UploadRejected(400, MissingFileMessage, None), None)
    ensures r.queued.Some? <==> Truthy(bodyUserId) && file.Some?
    ensures r.response.UploadStarted? <==> r.queued.Some? && queueError.None?
    ensures r.queued.Some? ==>
      var job := r.queued.value;
      && job.name == QueueJobName
      && job.jobId == job.payload.jobId
      && job.jobId == JobId(bodyUserId.value, now, suffix)
      && StartsWith(job.jobId, bodyUserId.value + "_")
      && job.payload == FileUploadJob(file.value.originalname, file.value.path, file.value.filename, bodyUserId.value, job.jobId)
    ensures r.response.UploadStarted? ==>
      && r.response.jobId == r.queued.value.jobId
      && r.response.userId == bodyUserId.value
      && r.response.fileUrl == r.response.cloudinaryUrl == file.value.path
      && r.response.filename == file.value.originalname
    ensures queueError.Some? && r.queued.Some? ==>
      r.response == UploadRejected(500, UploadFailedMessage, Some(ErrorMessage(queueError.value)))
  {
    if !Truthy(bodyUserId) then UploadOutcome(UploadRejected(400, MissingUserMessage, None), None)
    else if file.None? then UploadOutcome(UploadRejected(400, MissingFileMessage, None), None)
    else
      var userId := bodyUserId.value;
      var f := file.value;
      var jobId := JobId(userId, now, suffix);
      var payload := FileUploadJob(f.originalname, f.path, f.filename, userId, jobId);
      var queued := Some(QueuedJob(QueueJobName, payload, jobId));
      match queueError
      case Some(e) => UploadOutcome(UploadRejected(500, UploadFailedMessage, Some(ErrorMessage(e))), queued)
      case None => UploadOutcome(UploadStarted(UploadStartedMessage, userId, jobId, f.path, f.path, f.originalname), queued)
  }

  /** The suffix `Math.random().toString(36).substr(2, 9)` is made of base-36
      digits, so it never holds a `_`. */
  predicate IsSuffix(suffix: string) {
    forall i :: 0 <= i < |suffix| ==> suffix[i] != '_'
  }

  /** Cut at any `_` after which no `_` follows, a job id gives the user id
      with the timestamp, and the suffix; cut the first part the same way and
      it gives the user id and the decimal timestamp. Whatever the user id
      holds (Clerk ids are `user_…`), these cuts are the only ones. */
  lemma JobIdParts(userId: string, now: nat, suffix: string, head: string, tail: string)
    requires IsSuffix(suffix)
    requires forall i :: 0 <= i < |tail| ==> tail[i] != '_'
    requires JobId(userId, now, suffix) == head + "_" + tail
    ensures tail == suffix && head == userId + "_" + NatToString(now)
  {
    LastCutUnique(userId + "_" + NatToString(now), suffix, head, tail, '_');
  }

  /** Equal job ids come from the same user, the same timestamp and the same
      suffix, for every user id. */
  lemma JobIdInjective(u1: string, n1: nat, s1: string, u2: string, n2: nat, s2: string)
    requires IsSuffix(s1) && IsSuffix(s2)
    requires JobId(u1, n1, s1) == JobId(u2, n2, s2)
    ensures u1 == u2 && n1 == n2 && s1 == s2
  {
    var t1 := NatToString(n1);
    var t2 := NatToString(n2);
    JobIdParts(u2, n2, s2, u1 + "_" + t1, s1);
    forall i | 0 <= i < |t1| ensures t1[i] != '_' {
    }
    forall i | 0 <= i < |t2| ensures t2[i] != '_' {
    }
    LastCutUnique(u1, t1, u2, t2, '_');
    NatToStringInjective(n1, n2);
  }

  // ---------------------------------------------------------------------------
  // Naming

  /** `user_${userId}_documents`: the collection the chat endpoint searches. */
  function CollectionName(userId: string): string {
    "user_" + userId + "_documents"
  }

  /** `user_${userId}`: the Socket.IO room of a user. */
  function RoomName(userId: string): string {
    "user_" + userId
  }

  lemma {:induction false} AffixCancel(p: string, a: string, b: string, q: string)
    requires p + a + q == p + b + q
    ensures a == b
  {
    var s := p + a + q;
    assert |a| == |b|;
    assert a == s[|p|..|p| + |a|];
    assert b == (p + b + q)[|p|..|p| + |b|];
  }

  /** Distinct users never share a collection. */
  lemma CollectionNameInjective(u1: string, u2: string)
    ensures CollectionName(u1) == CollectionName(u2) <==> u1 == u2
  {
    if CollectionName(u1) == CollectionName(u2) {
      AffixCancel("user_", u1, u2, "_documents");
    }
  }

  /** Distinct users never share a room. */
  lemma RoomNameInjective(u1: string, u2: string)
    ensures RoomName(u1) == RoomName(u2) <==> u1 == u2
  {
    if RoomName(u1) == RoomName(u2) {
      AffixCancel("user_", u1, u2, "");
    }
  }

  /** A per-user collection is never the worker's fixed collection. */
  lemma CollectionIsNotWorkers(u: string)
    ensures CollectionName(u) != Ingestion.WorkerCollection
  {
    assert CollectionName(u)[0] == 'u';
    assert Ingestion.WorkerCollection[0] == 'l';
  }

  // ---------------------------------------------------------------------------
  // Progress relay

  /** The `ProgressData` the worker would send. */
  datatype ProgressData = ProgressData(userId: string, progress: int, message: string)

  /** The rooms a socket is in after joining as each of `userIds`. */
  function JoinedRooms(userIds: seq<string>): (r: set<string>)
    ensures forall u :: u in userIds ==> RoomName(u) in r
  {
    set u | u in userIds :: RoomName(u)
  }

  /** `io.to(`user_${data.userId}`).emit('uploadProgress', data)` reaches a socket. */
  predicate Receives(userIds: seq<string>, data: ProgressData) {
    RoomName(data.userId) in JoinedRooms(userIds)
  }

  /** A socket receives a relayed progress event exactly when it joined as
      the event's user. */
  lemma ProgressReachesOnlyItsUser(userIds: seq<string>, data: ProgressData)
    ensures Receives(userIds, data) <==> data.userId in userIds
  {
    if Receives(userIds, data) {
      var u :| u in userIds && RoomName(u) == RoomName(data.userId);
      RoomNameInjective(u, data.userId);
    }
  }

  // ---------------------------------------------------------------------------
  // Chat

  const MissingMessageMessage: string := "Message is required"
  const NoDocumentsMessage: string := "I don't have any documents to reference. Please upload some PDF documents first so I can help answer your questions about them."
  const ChatFailedMessage: string := "Failed to process your query. Please try again."
  const ParagraphBreak: string := "\n\n"
  const PromptHead: string := "\n      You are a helpful AI Assistant who answers the user query based on the available context from PDF File.\n      \n      Context:\n      "
  const PromptMiddle: string := "\n      \n      User Query: "
  const PromptTail: string := "\n      "

  /**
   * The services the chat endpoint calls: `retrieve(collection, query)` opens
   * the collection and runs the two-nearest retriever, `generate(prompt)`
   * calls the language model; each gives its result or what it throws.
   */
  datatype ChatServices = ChatServices(
    retrieve: (string, string) -> Result<seq<Ingestion.Document>, Thrown>,
    generate: string -> Result<string, Thrown>)

  datatype ChatResponse =
    | ChatRejected(status: nat, error: string, details: Option<string>)
    | ChatAnswer(message: string, docs: seq<Ingestion.Document>)

  function PageContents(docs: seq<Ingestion.Document>): (r: seq<string>)
    ensures |r| == |docs|
    ensures forall i :: 0 <= i < |docs| ==> r[i] == docs[i].pageContent
  {
    seq(|docs|, i requires 0 <= i < |docs| => docs[i].pageContent)
  }

  /** `result.map(doc => doc.pageContent).join("\n\n")` */
  function ContextString(docs: seq<Ingestion.Document>): string {
    Join(PageContents(docs), ParagraphBreak)
  }

  /** The prompt template around the context and the query. */
  function Prompt(context: string, query: string): string {
    PromptHead + context + PromptMiddle + query + PromptTail
  }

  /** The context splits back into the retrieved contents, in retrieval
      order, whenever `"\n\n"` can separate them: no content holds a blank
      line and none but the last ends in a line break. */
  lemma ContextSplitsBack(docs: seq<Ingestion.Document>)
    requires |docs| > 0
    requires Separable(PageContents(docs), ParagraphBreak)
    ensures Split(ContextString(docs), ParagraphBreak) == PageContents(docs)
  {
    SplitJoin(PageContents(docs), ParagraphBreak);
  }

  /** What the inner `catch` does with an error: a missing collection becomes
      an ordinary answer without documents; anything else reaches the outer
      `catch` and becomes a 500. */
  function Recover(e: Thrown): (r: ChatResponse)
    ensures r.ChatAnswer? <==> Contains(ErrorMessage(e), "not found") || Contains(ErrorMessage(e), "does not exist")
    ensures r.ChatAnswer? ==> r == ChatAnswer(NoDocumentsMessage, [])
    ensures r.ChatRejected? ==> r == ChatRejected(500, ChatFailedMessage, Some(ErrorMessage(e)))
  {
    var m := ErrorMessage(e);
    if Contains(m, "not found") || Contains(m, "does not exist") then ChatAnswer(NoDocumentsMessage, [])
    else ChatRejected(500, ChatFailedMessage, Some(m))
  }

  /** `GET /chat?message=…&userId=…`. */
  function Chat(message: Option<string>, userId: Option<string>, svc: ChatServices): (r: ChatResponse)
    ensures !Truthy(userId) ==> r == ChatRejected(400, MissingUserMessage, None)
    ensures Truthy(userId) && !Truthy(message) ==> r == ChatRejected(400, MissingMessageMessage, None)
    ensures r.ChatRejected? && r.status == 400 ==> !Truthy(userId) || !Truthy(message)
  {
    if !Truthy(userId) then ChatRejected(400, MissingUserMessage, None)
    else if !Truthy(message) then ChatRejected(400, MissingMessageMessage, None)
    else
      var query := message.value;
      match svc.retrieve(CollectionName(userId.value), query)
      case Err(e) => Recover(e)
      case Ok(docs) =>
        match svc.generate(Prompt(ContextString(docs), query))
        case Err(e) => Recover(e)
        case Ok(text) => ChatAnswer(text, docs)
  }

  /** A valid chat request searches the caller's own collection, and a
      successful answer carries the model's text for the prompt built from
      the retrieved documents, together with those documents. */
  lemma ChatAnswersFromOwnCollection(message: string, userId: string, svc: ChatServices)
    requires message != "" && userId != ""
    requires svc.retrieve(CollectionName(userId), message).Ok?
    requires svc.generate(Prompt(ContextString(svc.retrieve(CollectionName(userId), message).value), message)).Ok?
    ensures var docs := svc.retrieve(CollectionName(userId), message).value;
            Chat(Some(message), Some(userId), svc)
              == ChatAnswer(svc.generate(Prompt(ContextString(docs), message)).value, docs)
  {
  }

  /** A user without a collection gets the fixed answer with no documents,
      not an error. */
  lemma MissingCollectionIsNotAnError(message: string, userId: string, svc: ChatServices, m: string)
    requires message != "" && userId != ""
    requires svc.retrieve(CollectionName(userId), message) == Err(ErrorObject(m))
    requires Contains(m, "not found") || Contains(m, "does not exist")
    ensures Chat(Some(message), Some(userId), svc) == ChatAnswer(NoDocumentsMessage, [])
  {
  }

  /** The classifier also catches generation errors: a model error whose
      message says "not found" reads as a missing collection even though
      documents were retrieved. */
  lemma GenerationNotFoundReadsAsNoDocuments(message: string, userId: string, svc: ChatServices, docs: seq<Ingestion.Document>)
    requires message != "" && userId != ""
    requires svc.retrieve(CollectionName(userId), message) == Ok(docs)
    requires svc.generate(Prompt(ContextString(docs), message)) == Err(ErrorObject("model not found"))
    ensures Chat(Some(message), Some(userId), svc) == ChatAnswer(NoDocumentsMessage, [])
  {
    var m := "model not found";
    assert OccursAt(m, "not found", 6);
    IndexOfFirst(m, "not found", 6);
  }

  /** A thrown value that is not an `Error` is reported as a 500 with details
      "Unknown error". */
  lemma NonErrorIsServerError(message: string, userId: string, svc: ChatServices)
    requires message != "" && userId != ""
    requires svc.retrieve(CollectionName(userId), message) == Err(NonError)
    ensures Chat(Some(message), Some(userId), svc) == ChatRejected(500, ChatFailedMessage, Some(UnknownErrorMessage))
  {
    // "Unknown error" has neither the `f` of "not found" nor the `d` of "does not exist".
    AbsentCharNoOccurrence(UnknownErrorMessage, "not found", 4);
    AbsentCharNoOccurrence(UnknownErrorMessage, "does not exist", 0);
  }
}
