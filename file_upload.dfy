/**
 * The upload panel: the status machine driven by the upload request's
 * outcome and by the progress events the server relays (kept only when
 * their job id is the one being tracked), the drop and drag handlers, and
 * the "time ago" and size labels of the uploaded-files list.
 */
module FileUpload {
  import opened Wrappers
  import opened Text

  const PdfType: string := "application/pdf"
  const AuthRequiredMessage: string := "User authentication required. Please sign in again."
  const ProcessingStartedMessage: string := "Upload successful, processing document..."
  const PdfOnlyMessage: string := "Only PDF files are accepted"
  const UploadFailedFallback: string := "Upload failed"
  const StatusFailurePrefix: string := "Upload failed with status: "

  datatype UploadStatus = Idle | Uploading | Processing | Success | Error

  /** The `status` of a progress event. */
  datatype ProgressStatus = ProgressProcessing | ProgressCompleted | ProgressError | ProgressFinalizing

  datatype Details = Details(
    filename: Option<string>, stage: Option<string>,
    currentDocument: Option<int>, totalDocuments: Option<int>,
    currentBatch: Option<int>, totalBatches: Option<int>,
    documentPreview: Option<string>, pageNumber: Option<int>, success: Option<bool>,
    fileSize: Option<int>, totalChunks: Option<int>, totalPages: Option<int>,
    documentsInBatch: Option<int>)

  /** An `uploadProgress` event. */
  datatype ProgressEvent = ProgressEvent(userId: string, jobId: string, progress: int, status: ProgressStatus, message: string, details: Option<Details>)

  /** A file the browser hands over. */
  datatype PickedFile = PickedFile(name: string, size: nat, mimeType: string)

  /** An entry of the uploaded-files list; `timestamp` is the clock reading in milliseconds. */
  datatype UploadedFile = UploadedFile(name: string, size: nat, timestamp: int)

  /** How the upload request ended: an ok reply with its `jobId` field, a
      reply with a non-ok status and its `error` field, or a thrown value
      (network failure, unparsable body). */
  datatype UploadReply = Accepted(jobId: Option<string>) | Refused(status: nat, error: Option<string>) | Threw(thrown: Thrown)

  datatype DragKind = DragEnter | DragOver | DragLeave

  /** The component's state fields, as one value. */
  datatype Panel = Panel(
    status: UploadStatus, files: seq<UploadedFile>, errorMessage: string, dragActive: bool,
    jobId: Option<string>, progress: int, message: string, canChat: bool, details: Option<Details>)

  const InitialPanel: Panel := Panel(Idle, [], "", false, None, 0, "", false, None)

  // ---------------------------------------------------------------------------
  // Transitions

  /** The message shown when an upload fails: the server's `error` field, the
      status fallback, or the thrown error's message. */
  function FailureMessage(reply: UploadReply): (m: string)
    requires !reply.Accepted?
    ensures reply.Refused? && Truthy(reply.error) ==> m == reply.error.value
    ensures reply.Refused? && !Truthy(reply.error) ==> m == StatusFailurePrefix + NatToString(reply.status)
    ensures reply.Threw? && reply.thrown.ErrorObject? ==> m == reply.thrown.message
    ensures reply.Threw? && reply.thrown.NonError? ==> m == UploadFailedFallback
  {
    match reply
    case Refused(status, error) =>
      if Truthy(error) then error.value else StatusFailurePrefix + NatToString(status)
    case Threw(ErrorObject(m)) => m
    case Threw(NonError) => UploadFailedFallback
  }

  /** The synchronous start of an upload. */
  function Started(s: Panel, userId: Option<string>): Panel {
    if !Truthy(userId) then s.(status := Error, errorMessage := AuthRequiredMessage)
    else s.(status := Uploading, errorMessage := "", canChat := false)
  }

  /** The state once the request has ended. */
  function Finished(s: Panel, file: PickedFile, reply: UploadReply, now: int): Panel {
    match reply
    case Accepted(jobId) =>
      s.(jobId := jobId, status := Processing, progress := 0, message := ProcessingStartedMessage,
         files := [UploadedFile(file.name, file.size, now)] + s.files)
    case _ => s.(status := Error, errorMessage := FailureMessage(reply))
  }

  /** A whole upload: nothing is sent without a user id. */
  function Uploaded(s: Panel, userId: Option<string>, file: PickedFile, reply: UploadReply, now: int): Panel {
    if !Truthy(userId) then Started(s, userId) else Finished(Started(s, userId), file, reply, now)
  }

  /** The `uploadProgress` handler. */
  function Progressed(s: Panel, e: ProgressEvent): Panel {
    if Some(e.jobId) != s.jobId then s
    else
      var t := s.(progress := e.progress, message := e.message, details := e.details);
      if e.status == ProgressCompleted then t.(status := Success, canChat := true)
      else if e.status == ProgressError then
        t.(status := Error, errorMessage := e.message, jobId := None, progress := 0, message := "", details := None)
      else t
  }

  /** The reset scheduled three seconds after a completed event. */
  function SuccessReset(s: Panel): Panel {
    s.(status := Idle, jobId := None, progress := 0, message := "", details := None)
  }

  /** The reset scheduled three seconds after a rejected drop. */
  function RejectionReset(s: Panel): Panel {
    s.(status := Idle)
  }

  function Dragged(s: Panel, kind: DragKind): Panel {
    s.(dragActive := kind != DragLeave)
  }

  /** `handleDrop`: only the first file is looked at. */
  function Dropped(s: Panel, files: seq<PickedFile>, userId: Option<string>, reply: UploadReply, now: int): Panel {
    var t := s.(dragActive := false);
    if |files| == 0 then t
    else if files[0].mimeType == PdfType then Uploaded(t, userId, files[0], reply, now)
    else t.(status := Error, errorMessage := PdfOnlyMessage)
  }

  // ---------------------------------------------------------------------------
  // Properties of the transitions

  /** An event for another job changes nothing. */
  lemma ForeignEventIgnored(s: Panel, e: ProgressEvent)
    requires s.jobId != Some(e.jobId)
    ensures Progressed(s, e) == s
  {
  }

  /** Once no job is tracked, no event has any effect. */
  lemma UntrackedIgnoresAll(s: Panel, e: ProgressEvent)
    requires s.jobId.None?
    ensures Progressed(s, e) == s
  {
  }

  /** A completed event for the tracked job enables chat and records the
      event's progress and message. */
  lemma CompletionEnablesChat(s: Panel, e: ProgressEvent)
    requires s.jobId == Some(e.jobId) && e.status == ProgressCompleted
    ensures var t := Progressed(s, e);
            && t.status == Success && t.canChat
            && t.jobId == s.jobId && t.progress == e.progress && t.message == e.message && t.details == e.details
            && t.files == s.files && t.errorMessage == s.errorMessage
  {
  }

  /** An error event for the tracked job shows its message and forgets the
      job, so every later event is ignored until the next upload. */
  lemma ErrorForgetsJob(s: Panel, e: ProgressEvent, later: ProgressEvent)
    requires s.jobId == Some(e.jobId) && e.status == ProgressError
    ensures var t := Progressed(s, e);
            && t.status == Error && t.errorMessage == e.message
            && t.jobId.None? && t.progress == 0 && t.message == "" && t.details.None?
            && t.canChat == s.canChat && t.files == s.files
            && Progressed(t, later) == t
  {
  }

  /** Any other status for the tracked job only updates progress, message
      and details. */
  lemma ProgressOnlyUpdates(s: Panel, e: ProgressEvent)
    requires s.jobId == Some(e.jobId)
    requires e.status == ProgressProcessing || e.status == ProgressFinalizing
    ensures Progressed(s, e) == s.(progress := e.progress, message := e.message, details := e.details)
  {
  }

  /** Without a user id the upload ends at once in the error state with the
      sign-in message. */
  lemma UploadNeedsUser(s: Panel, file: PickedFile, reply: UploadReply, now: int)
    ensures Uploaded(s, None, file, reply, now) == s.(status := Error, errorMessage := AuthRequiredMessage)
    ensures Uploaded(s, Some(""), file, reply, now) == s.(status := Error, errorMessage := AuthRequiredMessage)
  {
  }

  /** An accepted upload tracks the returned job from progress 0, with chat
      disabled and the file prepended to the list. */
  lemma AcceptedUploadTracksJob(s: Panel, userId: string, file: PickedFile, jobId: Option<string>, now: int)
    requires userId != ""
    ensures var t := Uploaded(s, Some(userId), file, Accepted(jobId), now);
            && t.status == Processing && t.jobId == jobId && t.progress == 0
            && !t.canChat && t.errorMessage == ""
            && |t.files| == |s.files| + 1
            && t.files[0] == UploadedFile(file.name, file.size, now)
            && t.files[1..] == s.files
  {
  }

  /** A failed upload leaves the job, progress and file list as they were and
      disables chat. */
  lemma FailedUploadKeepsJob(s: Panel, userId: string, file: PickedFile, reply: UploadReply, now: int)
    requires userId != "" && !reply.Accepted?
    ensures var t := Uploaded(s, Some(userId), file, reply, now);
            && t.status == Error && t.errorMessage == FailureMessage(reply)
            && !t.canChat && t.jobId == s.jobId && t.files == s.files
  {
  }

  /** A drop of several files is the drop of its first file. */
  lemma DropUsesFirstFile(s: Panel, first: PickedFile, rest: seq<PickedFile>, userId: Option<string>, reply: UploadReply, now: int)
    ensures Dropped(s, [first] + rest, userId, reply, now) == Dropped(s, [first], userId, reply, now)
  {
  }

  /** A dropped file that is not a PDF is refused without an upload: the
      file list and the tracked job stay as they were. */
  lemma NonPdfDropRefused(s: Panel, first: PickedFile, rest: seq<PickedFile>, userId: Option<string>, reply: UploadReply, now: int)
    requires first.mimeType != PdfType
    ensures var t := Dropped(s, [first] + rest, userId, reply, now);
            && t.status == Error && t.errorMessage == PdfOnlyMessage
            && t.files == s.files && t.jobId == s.jobId && !t.dragActive
  {
  }

  /** The reset after success returns to idle and keeps chat enabled. */
  lemma ResetKeepsChat(s: Panel)
    ensures var t := SuccessReset(s);
            t.status == Idle && t.jobId.None? && t.canChat == s.canChat && t.files == s.files
  {
  }

  // ---------------------------------------------------------------------------
  // The component

  class UploadPanel {
    var uploadStatus: UploadStatus
    var uploadedFiles: seq<UploadedFile>
    var errorMessage: string
    var dragActive: bool
    var currentJobId: Option<string>
    var processingProgress: int
    var processingMessage: string
    var canChat: bool
    var progressDetails: Option<Details>

    function Snapshot(): Panel
      reads this
    {
      Panel(uploadStatus, uploadedFiles, errorMessage, dragActive, currentJobId,
            processingProgress, processingMessage, canChat, progressDetails)
    }

    constructor()
      ensures Snapshot() == InitialPanel
    {
      uploadStatus := Idle;
      uploadedFiles := [];
      errorMessage := "";
      dragActive := false;
      currentJobId := None;
      processingProgress := 0;
      processingMessage := "";
      canChat := false;
      progressDetails := None;
    }

    /** The part of `handleFileUpload` before the request; reports whether
        the request is sent. */
    method StartUpload(userId: Option<string>) returns (sent: bool)
      modifies this
      ensures sent <==> Truthy(userId)
      ensures Snapshot() == Started(old(Snapshot()), userId)
    {
      if !Truthy(userId) {
        uploadStatus := Error;
        errorMessage := AuthRequiredMessage;
        return false;
      }
      uploadStatus := Uploading;
      errorMessage := "";
      canChat := false;
      return true;
    }

    /** The part of `handleFileUpload` after the request. */
    method FinishUpload(file: PickedFile, reply: UploadReply, now: int)
      modifies this
      ensures Snapshot() == Finished(old(Snapshot()), file, reply, now)
    {
      match reply
      case Accepted(jobId) =>
        currentJobId := jobId;
        uploadStatus := Processing;
        processingProgress := 0;
        processingMessage := ProcessingStartedMessage;
        uploadedFiles := [UploadedFile(file.name, file.size, now)] + uploadedFiles;
      case Refused(_, _) =>
        uploadStatus := Error;
        errorMessage := FailureMessage(reply);
      case Threw(_) =>
        uploadStatus := Error;
        errorMessage := FailureMessage(reply);
    }

    /** `handleFileUpload`, with the request's outcome and the clock as parameters. */
    method HandleFileUpload(userId: Option<string>, file: PickedFile, reply: UploadReply, now: int) returns (sent: bool)
      modifies this
      ensures sent <==> Truthy(userId)
      ensures Snapshot() == Uploaded(old(Snapshot()), userId, file, reply, now)
    {
      sent := StartUpload(userId);
      if sent {
        FinishUpload(file, reply, now);
      }
    }

    /** The `uploadProgress` listener. */
    method HandleProgress(e: ProgressEvent)
      modifies this
      ensures Snapshot() == Progressed(old(Snapshot()), e)
    {
      if Some(e.jobId) == currentJobId {
        processingProgress := e.progress;
        processingMessage := e.message;
        progressDetails := e.details;
        if e.status == ProgressCompleted {
          uploadStatus := Success;
          canChat := true;
        } else if e.status == ProgressError {
          uploadStatus := Error;
          errorMessage := e.message;
          currentJobId := None;
          processingProgress := 0;
          processingMessage := "";
          progressDetails := None;
        }
      }
    }

    /** The timer set by a completed event fires. */
    method SuccessTimeout()
      modifies this
      ensures Snapshot() == SuccessReset(old(Snapshot()))
    {
      uploadStatus := Idle;
      currentJobId := None;
      processingProgress := 0;
      processingMessage := "";
      progressDetails := None;
    }

    /** The timer set by a rejected drop fires. */
    method RejectionTimeout()
      modifies this
      ensures Snapshot() == RejectionReset(old(Snapshot()))
    {
      uploadStatus := Idle;
    }

    /** `handleDrag` */
    method HandleDrag(kind: DragKind)
      modifies this
      ensures Snapshot() == Dragged(old(Snapshot()), kind)
    {
      if kind == DragEnter || kind == DragOver {
        dragActive := true;
      } else {
        dragActive := false;
      }
    }

    /** `handleDrop`, with the outcome of the upload it may start. */
    method HandleDrop(files: seq<PickedFile>, userId: Option<string>, reply: UploadReply, now: int)
      modifies this
      ensures Snapshot() == Dropped(old(Snapshot()), files, userId, reply, now)
    {
      dragActive := false;
      if |files| > 0 {
        var file := files[0];
        if file.mimeType == PdfType {
          var _ := HandleFileUpload(userId, file, reply, now);
        } else {
          uploadStatus := Error;
          errorMessage := PdfOnlyMessage;
        }
      }
    }
  }

  // ---------------------------------------------------------------------------
  // Labels

  datatype TimeUnit = Sec | Min | Hour | Day

  function UnitName(u: TimeUnit): string {
    match u
    case Sec => "sec"
    case Min => "min"
    case Hour => "hour"
    case Day => "day"
  }

  function UnitSeconds(u: TimeUnit): nat {
    match u
    case Sec => 1
    case Min => 60
    case Hour => 3600
    case Day => 86400
  }

  /** A count of whole units. */
  datatype Elapsed = Elapsed(count: int, unit: TimeUnit)

  /** The cascade of `formatTimeElapsed`: whole seconds, then each unit the
      floor of the previous one. */
  function ElapsedOf(elapsedMs: int): Elapsed {
    var seconds := elapsedMs / 1000;
    if seconds < 60 then Elapsed(seconds, Sec)
    else
      var minutes := seconds / 60;
      if minutes < 60 then Elapsed(minutes, Min)
      else
        var hours := minutes / 60;
        if hours < 24 then Elapsed(hours, Hour)
        else Elapsed(hours / 24, Day)
  }

  /** `formatTimeElapsed`, with the milliseconds since the upload as input. */
  function FormatTimeElapsed(elapsedMs: int): string {
    var e := ElapsedOf(elapsedMs);
    IntToString(e.count) + " " + UnitName(e.unit) + (if e.count != 1 then "s" else "") + " ago"
  }

  /** The unit chosen depends only on the whole seconds elapsed, and the count
      is those seconds divided, rounding down, by the unit's length. */
  lemma ElapsedUnits(elapsedMs: int)
    ensures var s := elapsedMs / 1000;
            var e := ElapsedOf(elapsedMs);
            && (e.unit == Sec <==> s < 60)
            && (e.unit == Min <==> 60 <= s < 3600)
            && (e.unit == Hour <==> 3600 <= s < 86400)
            && (e.unit == Day <==> 86400 <= s)
            && e.count == s / UnitSeconds(e.unit)
            && (e.unit != Sec ==> e.count >= 1)
  {
    var s := elapsedMs / 1000;
    if s >= 60 {
      HoursFromSeconds(s);
      DaysFromSeconds(s);
    }
  }

  /** Whole minutes of whole minutes are whole hours. */
  lemma HoursFromSeconds(s: int)
    ensures s / 60 / 60 == s / 3600
  {
    var q, r := s / 60, s % 60;
    var q2, r2 := q / 60, q % 60;
    assert s == 3600 * q2 + (60 * r2 + r);
  }

  /** Whole days of whole hours are whole days. */
  lemma DaysFromSeconds(s: int)
    ensures s / 3600 / 24 == s / 86400
  {
    var q, r := s / 3600, s % 3600;
    var q2, r2 := q / 24, q % 24;
    assert s == 86400 * q2 + (3600 * r2 + r);
  }

  /** The plural `s` appears exactly when the count is not one. */
  lemma PluralUnlessOne(elapsedMs: int)
    ensures EndsWith(FormatTimeElapsed(elapsedMs), "s ago") <==> ElapsedOf(elapsedMs).count != 1
  {
    var e := ElapsedOf(elapsedMs);
    var r := FormatTimeElapsed(elapsedMs);
    var name := UnitName(e.unit);
    if e.count == 1 {
      assert r == IntToString(1) + " " + name + " ago";
      assert r[|r| - 5] == name[|name| - 1];
    } else {
      assert r[|r| - 5..] == "s ago";
    }
  }

  /** The size label's unit. */
  datatype SizeUnit = Bytes | Kilobytes | Megabytes

  function SizeUnitOf(bytes: int): SizeUnit {
    if bytes < 1024 then Bytes else if bytes < 1024 * 1024 then Kilobytes else Megabytes
  }

  function UnitRank(u: SizeUnit): nat {
    match u
    case Bytes => 0
    case Kilobytes => 1
    case Megabytes => 2
  }

  /** `formatFileSize` for sizes under a kilobyte; larger sizes are shown in
      their unit with one decimal. */
  function ByteLabel(bytes: int): (r: Option<string>)
    ensures r.Some? <==> SizeUnitOf(bytes) == Bytes
  {
    if bytes < 1024 then Some(IntToString(bytes) + " B") else None
  }

  /** A larger file never gets a smaller unit. */
  lemma SizeUnitMonotone(a: int, b: int)
    requires a <= b
    ensures UnitRank(SizeUnitOf(a)) <= UnitRank(SizeUnitOf(b))
  {
  }
}
