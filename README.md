# DocuMind core, modelled in Dafny

DocuMind lets a signed-in user upload a PDF and chat about it. The model
covers these parts:

- **Upload endpoint** (`server/index.ts`). It:
  - checks the user id and the file;
  - builds the job id `userId_timestamp_suffix`;
  - queues a `file-ready` job and answers with the job id.
- **Upload storage callbacks** (`server/config/cloudinary.ts` and its older
  `.js` twin). They compute the per-user folder and a public id
  `timestamp-name`, where the name loses its final extension.
- **Ingestion worker** (`server/worker.js`). It parses the job and checks the
  file. It loads the PDF and runs a canary embedding. It opens the
  collection, or creates it with one placeholder document. Then it filters
  pages, cuts them into batches of 50, cleans each page with
  `cleanTextForEmbedding`, embeds it and stores it, skipping pages that fail.
- **Chat endpoint** (`server/index.ts`).
  - It validates the user id, then the message.
  - It searches the per-user collection `user_<id>_documents`.
  - It builds the prompt from the retrieved contents, joined with blank lines.
  - It sorts errors into "no documents yet" answers and 500s.
  - It relays progress events to the room `user_<id>`.
- **Chat panel** (`client/app/components/chat.tsx`). It:
  - keeps the append-only message log;
  - splits a reply into paragraphs and classifies each as code, list or text;
  - shows a "Sources" block that groups the documents by source, with
    deduplicated, sorted page numbers.
- **Upload panel** (`client/app/components/file-upload.tsx`). It:
  - runs the upload-status state machine;
  - follows progress events filtered by job id;
  - handles drag and drop;
  - formats the "time ago" label.

**Form of the model.** Each part takes the form of its source.
- Pure code becomes functions and lemmas:
  - the cleaning pipeline (`Cleaning`);
  - the endpoints' validation and naming (`Server`);
  - the storage callbacks (`Cloudinary`);
  - paragraph classification and page numbers (`Chat`).
- Code that changes state becomes classes and methods:
  - the worker's job is `Ingestion.RunJob`. It builds batches in a loop,
    runs nested loops over batches and documents, and writes into a
    `VectorStore` object.
  - The two panels are the classes `Chat.ChatPanel` and
    `FileUpload.UploadPanel`. Each handler is a method proved equal to a
    pure transition function, and the lemmas state the properties of those
    transitions.
  - The `Map` that groups sources is filled by a loop in
    `Chat.GroupBySource`.

**JavaScript semantics kept explicit:**
- `\s` and `trim` use the ECMAScript whitespace set (`Text.IsSpace`).
- `\w` is ASCII only.
- `||` treats `""` and a missing value alike (`Text.Truthy`).
- Numbers in template strings are rendered in decimal (`Text.NatToString`).
- `Math.floor` on a positive divisor is Dafny's `/`.

**Services outside the code are inputs.** The embedding service, the vector
store, the PDF loader, the file system, the queue, the language model and
`fetch` are all oracles. They appear as function-valued fields
(`Ingestion.Services`, `Server.ChatServices`) or as the outcome of a request
(`Chat.Reply`, `FileUpload.UploadReply`).

**Where the parts do not fit together.** `EndToEnd` proves three facts:
- The TypeScript upload endpoint queues a payload without `path`, and the
  worker reads `data.path`. So every such job fails with
  `File does not exist at path: undefined` (`EndToEnd.QueuedUploadsFail`).
- The chat panel never sends `userId`, so the chat endpoint refuses every
  request from it (`EndToEnd.PanelChatIsRefused`). The assistant message
  that results is empty.
- The worker writes to the fixed collection `langchainjs-testing`, which no
  user's chat collection can equal (`Server.CollectionIsNotWorkers`).

These are modelled as the code is written.

## Model

| member | source | states |
|---|---|---|
| Text.Trim | server/worker.js:25 | `trim` removes exactly the leading and trailing `\s` characters: the result is a slice of the input whose ends are not whitespace. It is empty iff the input is all whitespace, and an input with non-space ends is unchanged |
| Text.IndexOf | server/index.ts:249 | the first index at which the separator occurs, or none when it never occurs |
| Text.Split | client/app/components/chat.tsx:83 | the pieces join back with the separator into the input, and no piece contains the separator |
| Text.SplitJoin | client/app/components/chat.tsx:83 | splitting the join of parts gives back the parts, when no part contains the separator and no part but the last ends with a proper prefix of it |
| Text.SplitDoubledSeparable | client/app/components/chat.tsx:83 | for a separator of two equal characters such as `"\n\n"`, the pieces `split` returns meet that condition |
| Text.Utf16Length | server/worker.js:124 | `length` counts UTF-16 code units: at least the number of characters and at most twice it, with equality at the ends when every character is below or every character above U+10000 |
| Cleaning.CleanTextForEmbedding | server/worker.js:18-33 | empty input gives `""`. The output is at most 2048 characters: the normalised text when short enough, otherwise its first 2048 characters |
| Cleaning.ReplaceDisallowed | server/worker.js:23 | same length; each character outside `\w`, `\s` and the allowed punctuation becomes a space, and all others stay |
| Cleaning.ReplaceUrlsLeavesNoUrl | server/worker.js:21 | after URL replacement no position starts `http://` or `https://` followed by a non-space |
| Cleaning.ReplaceUrlsIdentity | server/worker.js:21 | text without a URL is unchanged by the replacement |
| Cleaning.CollapseShape | server/worker.js:25 | after collapsing, every whitespace character is a single space, no two spaces are adjacent, the other characters come from the input, and a leading space stays leading |
| Cleaning.CollapseKeepsText | server/worker.js:25 | collapsing keeps the non-space characters and their order |
| Cleaning.CollapseIdentity | server/worker.js:25 | text that is already single-spaced is unchanged by collapsing |
| Cleaning.NormalizeShape | server/worker.js:21-25 | before truncation the text has only allowed characters and single spaces, and neither starts nor ends with a space |
| Cleaning.CleanOutputShape | server/worker.js:18-33 | the output is clean: allowed characters, single spaces, no leading space, at most 2048 characters. It ends in a space only when truncation cut there |
| Cleaning.CleanHasNoUrl | server/worker.js:21-23 | the output contains no `/` and therefore no URL |
| Cleaning.CleanOfCleanPrefix | server/worker.js:18-33 | cleaning an already clean string returns it, minus a trailing space |
| Cleaning.CleanIdempotent | server/worker.js:18-33 | cleaning twice equals cleaning once, except that a trailing space left by truncation is trimmed |
| Ingestion.ValidDocs | server/worker.js:123-129 | a document is kept iff its trimmed content has more than 10 UTF-16 code units |
| Ingestion.AstralPageValid | server/worker.js:124 | a page of six or more characters above U+FFFF passes the filter, since each counts twice |
| Ingestion.ValidDocsOrder | server/worker.js:123-129 | the filter keeps input order: it filters each part of a concatenation separately and keeps a single document iff it is valid |
| Ingestion.BatchesShape | server/worker.js:132-137 | the batches concatenate back to the documents; each has 1 to 50 documents, and every batch but the last is full |
| Ingestion.BatchCount | server/worker.js:135-137 | the number of batches is the ceiling of the document count over the batch size |
| Ingestion.MakeBatches | server/worker.js:132-137 | the index loop with `slice(i, i + 50)` produces exactly `Batches` |
| Ingestion.VectorStore.AddDocuments | server/worker.js:177 | an accepted call appends the documents to the records; a refused one leaves them unchanged |
| Ingestion.VectorStore.FromTexts | server/worker.js:101-115 | the new collection holds one document per text, with the shared metadata |
| Ingestion.ProcessDocument | server/worker.js:146-187 | one document step. It skips a too-short page. Otherwise it stores the cleaned page only when its embedding is non-empty and the store accepts it, and it stores nothing on an error |
| Ingestion.EmbedAndAdd | server/worker.js:164-180 | a cleaned document is added iff its embedding is non-empty and the store accepts it; an empty embedding, a thrown error or a refused insertion adds nothing |
| Ingestion.ProcessBatch | server/worker.js:146-188 | the records grow by the stored cleaned documents of the batch, in order |
| Ingestion.ProcessBatches | server/worker.js:141-195 | the records grow by the stored cleaned documents of all batches, in batch order |
| Ingestion.IngestOfValid | server/worker.js:150-153 | on filtered documents the inner length guard never fires, so the stored documents are exactly those embedded and accepted |
| Ingestion.IngestAppend | server/worker.js:141-195 | processing two runs of documents stores the first run's documents, then the second's |
| Ingestion.SkipIsIsolated | server/worker.js:171-183 | a document whose embedding is empty or fails, or whose insertion fails, is skipped without affecting the others |
| Ingestion.AllStored | server/worker.js:156-177 | when every document is accepted, the store receives every cleaned document, in order |
| Ingestion.OpenStore | server/worker.js:85-121 | opening the collection keeps its records. When opening fails, the collection is created holding only the placeholder, and a creation failure fails the job |
| Ingestion.StorePages | server/worker.js:123-195 | the records grow by the stored cleaned versions of the valid pages |
| Ingestion.RunJob | server/worker.js:36-207 | the job's outcome is `JobResult`; a completed job has a fresh store on `langchainjs-testing` holding the outcome's records |
| Ingestion.JobCompletion | server/worker.js:42-121 | a job completes iff the payload parses, the path exists, the PDF loads, the canary embedding is non-empty, and the collection opens or is created |
| Ingestion.JobRecords | server/worker.js:85-195 | a completed job's records are the placeholder (only when the collection was created) followed by the stored cleaned valid pages |
| Ingestion.EmptyPageDropped | server/worker.js:123-177 | from a three-page PDF whose middle page is empty, exactly the other two pages are stored, in order |
| Ingestion.ThreePageScenario | server/worker.js:123-177 | the same for the pages "Intro text here." and "Conclusion text here.", which cleaning leaves unchanged |
| Server.FileFilter | server/index.ts:65-72 | a file is accepted iff its type is `application/pdf`; any other type is the error "Only PDF files are allowed!" |
| Server.UploadPdf | server/index.ts:121-176 | validation checks the user id first (400), then the file (400). A job is queued iff both are present. The `file-ready` job carries the payload fields and the job id `JobId(userId, now, suffix)`, which starts with `userId + "_"`. The response repeats that job id and the file fields, and a queue error gives a 500 with its message |
| Server.JobIdParts | server/index.ts:144 | for any user id, cutting the job id at a `_` after which none follows gives the user id with the timestamp, and the base-36 suffix; the cut is unique |
| Server.JobIdInjective | server/index.ts:144 | for any user ids, including Clerk's `user_…` ids, equal job ids come from equal user ids, equal timestamps and equal suffixes |
| Server.CollectionNameInjective | server/index.ts:202 | two users share a collection name iff they are the same user |
| Server.RoomNameInjective | server/index.ts:102 | two users share a room iff they are the same user |
| Server.CollectionIsNotWorkers | server/index.ts:202 | no user's collection is the worker's `langchainjs-testing` |
| Server.ProgressReachesOnlyItsUser | server/index.ts:101-110 | a relayed progress event reaches a connection iff that connection joined as the event's user |
| Server.ContextSplitsBack | server/index.ts:226 | the prompt context splits back into the retrieved contents, in retrieval order, when no content holds a blank line and none but the last ends in a line break |
| Server.Recover | server/index.ts:244-265 | an error whose message contains "not found" or "does not exist" becomes the ordinary no-documents answer with empty docs; any other becomes a 500 with its message |
| Server.Chat | server/index.ts:178-267 | a missing user id gives 400 first, then a missing message gives 400. A 400 happens only for those two |
| Server.ChatAnswersFromOwnCollection | server/index.ts:202-243 | a valid request searches the caller's own collection and answers with the model's text for the prompt built from what was retrieved, plus those documents |
| Server.MissingCollectionIsNotAnError | server/index.ts:244-255 | a missing collection gives the no-documents answer |
| Server.GenerationNotFoundReadsAsNoDocuments | server/index.ts:237-255 | a generation error mentioning "not found" is also reported as "no documents" |
| Server.NonErrorIsServerError | server/index.ts:257-265 | a thrown non-Error value becomes a 500 with "Unknown error" |
| Cloudinary.Folder | server/config/cloudinary.ts:22-27 | the folder is the prefix plus the first truthy of body user id, query user id and "anonymous" |
| Cloudinary.LegacyFolder | server/config/cloudinary.js:19-23 | the folder is the prefix plus the body user id, or "anonymous" |
| Cloudinary.EmptyUserIdFallsThrough | server/config/cloudinary.ts:24 | an empty user id counts as absent |
| Cloudinary.FoldersAgree | server/config/cloudinary.js:21 | the two callbacks agree iff the body holds a truthy user id, or the query holds none, or the query's id is "anonymous" |
| Cloudinary.StripExtension | server/config/cloudinary.ts:32 | the result is a prefix of the name. It is cut at the place where `/\.[^/.]+$/` matches, and the name is unchanged when the pattern does not match |
| Cloudinary.ExtensionMatchUnique | server/config/cloudinary.ts:32 | the pattern can match in at most one place |
| Cloudinary.StripRemovesOneExtension | server/config/cloudinary.ts:32 | stripping removes nothing, or exactly one `.ext` at the end |
| Cloudinary.OnlyLastExtension | server/config/cloudinary.ts:32 | "a.tar.gz" becomes "a.tar", ".pdf" becomes "", and "report.pdf" becomes "report" |
| Cloudinary.TrailingDotUnchanged | server/config/cloudinary.ts:32 | a name ending in `.` is unchanged |
| Cloudinary.SlashAfterDotUnchanged | server/config/cloudinary.js:28 | a name with a `/` after its last `.` is unchanged |
| Cloudinary.PublicIdParts | server/config/cloudinary.ts:29-34 | the public id splits at its first `-` into the decimal timestamp and the stripped name |
| Chat.ChatPanel.SendChatMessage | client/app/components/chat.tsx:37-69 | a blank input changes nothing and sends nothing. Otherwise it clears the input, sends the message without a user id, and appends exactly the user message then the assistant message; earlier messages are unchanged |
| Chat.AssistantMessage | client/app/components/chat.tsx:49-65 | the assistant message carries the reply's `message` and `docs`, or the fixed apology when the request failed |
| Chat.Paragraphs | client/app/components/chat.tsx:83 | no paragraph is blank or holds a blank line, and there are none iff the content is blank |
| Chat.ParagraphsOfJoin | client/app/components/chat.tsx:83 | content made of pieces joined by blank lines gives back its non-blank pieces in order (all of them when none is blank), for any pieces, multi-line lists included, that hold no blank line and, but for the last, do not end in a line break |
| Chat.ParagraphsOfAnyContent | client/app/components/chat.tsx:83 | every content is such a join: its split pieces meet the condition and join back into it |
| Chat.CodeBody | client/app/components/chat.tsx:90 | the code is the paragraph minus three characters at each end, or empty when the fences overlap |
| Chat.ClassifyParagraph | client/app/components/chat.tsx:89-108 | a paragraph is code iff it starts and ends with the fence, and the code is `CodeBody`. Otherwise it is a list iff its trimmed form starts with `- ` or `* `, and the items are `ListItems` of it. Otherwise it is text unchanged |
| Chat.ListItemsOfLines | client/app/components/chat.tsx:100-104 | a paragraph made of lines without line breaks yields its marker lines, in order, each with its marker stripped; other lines are dropped |
| Chat.FencedIsCode | client/app/components/chat.tsx:89-90 | a fenced paragraph renders its body as code |
| Chat.StripListMarker | client/app/components/chat.tsx:104 | a leading `-` or `*` followed by whitespace is removed with all that whitespace, and only when the marker is the first character |
| Chat.StripMarkerOfItem | client/app/components/chat.tsx:104 | marker, whitespace and text give back the text |
| Chat.RenderMessageContent | client/app/components/chat.tsx:79-87 | missing or empty content renders nothing; otherwise it renders one block per paragraph, in order |
| Chat.SourceOrder | client/app/components/chat.tsx:145-152 | the group keys are exactly the documents' keys, without repeats, ordered by the index at which each key first appears |
| Chat.DocsWithKey | client/app/components/chat.tsx:147-151 | a group holds the documents with its key, in input order and with repeats: the filter of the documents on the key |
| Chat.EachDocInOneGroup | client/app/components/chat.tsx:145-152 | every document is in the group of its own key and in no other |
| Chat.GroupBySource | client/app/components/chat.tsx:145-152 | the `forEach` fills the map with keys in first-appearance order, and each key's documents in input order |
| Chat.Dedup | client/app/components/chat.tsx:164-166 | keeps each value once, and keeps every value |
| Chat.SortAscending | client/app/components/chat.tsx:167 | the result is sorted and is a permutation of the input |
| Chat.PageNumbersSpec | client/app/components/chat.tsx:162-167 | a group's page numbers are strictly increasing and are exactly the page numbers its documents define |
| Chat.RenderDocumentSources | client/app/components/chat.tsx:141-167 | missing or empty docs render no block; otherwise one entry per source in first-appearance order, with that group's page numbers |
| FileUpload.FailureMessage | client/app/components/file-upload.tsx:160-162 | the failure text is the server's `error`, else "Upload failed with status: N", else the thrown error's message, else "Upload failed" |
| FileUpload.UploadPanel.StartUpload | client/app/components/file-upload.tsx:136-147 | without a user id it shows the sign-in error and sends nothing. Otherwise the status becomes `uploading`, the error is cleared and chat is disabled |
| FileUpload.UploadPanel.FinishUpload | client/app/components/file-upload.tsx:153-189 | the new state is `Finished`: either processing the returned job with the file prepended, or an error with `FailureMessage` |
| FileUpload.UploadPanel.HandleFileUpload | client/app/components/file-upload.tsx:136-190 | a request is sent iff there is a user id; the new state is `Uploaded` |
| FileUpload.UploadPanel.HandleProgress | client/app/components/file-upload.tsx:59-84 | the new state is `Progressed` of the old one |
| FileUpload.UploadPanel.HandleDrop | client/app/components/file-upload.tsx:104-119 | the new state is `Dropped` of the old one |
| FileUpload.UploadPanel.HandleDrag | client/app/components/file-upload.tsx:93-101 | enter and over activate the drop zone; leave deactivates it |
| FileUpload.UploadPanel.SuccessTimeout | client/app/components/file-upload.tsx:68-74 | the delayed reset returns to idle and forgets the job, progress, message and details |
| FileUpload.UploadPanel.RejectionTimeout | client/app/components/file-upload.tsx:116 | the delayed reset after a refused drop returns the status to idle and changes nothing else |
| FileUpload.ForeignEventIgnored | client/app/components/file-upload.tsx:60 | an event for another job changes nothing |
| FileUpload.UntrackedIgnoresAll | client/app/components/file-upload.tsx:60 | with no tracked job, no event changes anything |
| FileUpload.CompletionEnablesChat | client/app/components/file-upload.tsx:61-74 | a completed event sets `success` and enables chat, and records the event's progress, message and details; the files and error are untouched |
| FileUpload.ErrorForgetsJob | client/app/components/file-upload.tsx:75-82 | an error event shows its message and resets the job, progress, message and details, so any later event is ignored |
| FileUpload.ProgressOnlyUpdates | client/app/components/file-upload.tsx:61-63 | other statuses only update progress, message and details |
| FileUpload.UploadNeedsUser | client/app/components/file-upload.tsx:138-142 | with no user id, or an empty one, the upload ends at once with the sign-in error |
| FileUpload.AcceptedUploadTracksJob | client/app/components/file-upload.tsx:145-181 | an accepted upload tracks the returned job from progress 0, with chat disabled and the file prepended to the unchanged older list |
| FileUpload.FailedUploadKeepsJob | client/app/components/file-upload.tsx:185-189 | a failed upload shows `FailureMessage` and keeps the job and the file list; chat stays disabled |
| FileUpload.DropUsesFirstFile | client/app/components/file-upload.tsx:109-110 | only the first dropped file matters |
| FileUpload.NonPdfDropRefused | client/app/components/file-upload.tsx:111-116 | a first file that is not a PDF gives "Only PDF files are accepted" without starting an upload |
| FileUpload.ResetKeepsChat | client/app/components/file-upload.tsx:68-74 | the reset after success returns to idle, forgets the job, and keeps chat enabled and the file list |
| FileUpload.ElapsedUnits | client/app/components/file-upload.tsx:204-218 | the unit is seconds, minutes, hours or days exactly for under 60 s, under 1 h, under 1 day, or longer. The count is the whole seconds divided, rounding down, by the unit's length, and is at least 1 above seconds |
| FileUpload.PluralUnlessOne | client/app/components/file-upload.tsx:208-217 | the label ends in "s ago" iff the count is not 1 |
| FileUpload.ByteLabel | client/app/components/file-upload.tsx:193-196 | a size gets a plain byte label iff it is under 1024 |
| FileUpload.SizeUnitMonotone | client/app/components/file-upload.tsx:193-201 | a larger file never gets a smaller unit |
| EndToEnd.WorkerPayload | server/worker.js:42-45 | the worker sees the queued job's filename and no path |
| EndToEnd.QueuedUploadsFail | server/index.ts:146-156 | every job queued by the upload endpoint fails in the worker with "File does not exist at path: undefined" |
| EndToEnd.UploadReplyOf | client/app/components/file-upload.tsx:160-168 | an ok reply yields the server's job id; a refused one yields its status and error |
| EndToEnd.UploadPanelFollowsServer | client/app/components/file-upload.tsx:153-189 | when the server queues the job, the panel tracks the server's job id, which starts with `userId + "_"`. A queue failure shows "Upload failed" and keeps the old job |
| EndToEnd.ChatReplyOf | client/app/components/chat.tsx:47-56 | an error body yields neither message nor docs; an answer yields its text and one client document per retrieved one |
| EndToEnd.PanelChatIsRefused | client/app/components/chat.tsx:46 | the panel's request has no user id, so the endpoint answers 400 "User ID is required" |
| EndToEnd.RefusedChatRendersNothing | client/app/components/chat.tsx:49-56 | the assistant message for that reply has no content and no documents, and renders nothing |
| EndToEnd.SendToServer | client/app/components/chat.tsx:37-69 | against the endpoint, a non-blank send ends the log with the user message and an empty assistant message |

## Left out

- External services are oracles and their internals are not modelled: PDF loading, Gemini embeddings and generation, Qdrant, BullMQ, Redis, Socket.IO transport, Cloudinary uploads, `fetch` and `fs.existsSync`. Each is a deterministic function of its inputs, so a retry that would behave differently is not captured.
- The retriever's `k: 2` is a property of the retrieval oracle, not of the code.
- Worker concurrency of 100 and any interleaving of jobs are not modelled. Each job runs alone.
- `Date.now()`, `new Date()` and `Math.random()` are parameters: `now`, `suffix`, `clientNow` and `elapsedMs`.
- JSON serialisation is left out. Replies are modelled by the fields the client reads, and the queued payload by the fields the worker reads.
- The worker's log lines and the preview string it computes only for logging are left out.
- The multer 10 MB size limit is not modelled, and neither is Express's default handling of the file filter's error.
- FileUpload.ByteLabel: sizes of a kilobyte or more are modelled only by their unit, because `toFixed(1)` is floating-point formatting.
- The progress-bar width and all other markup are left out. So is the inline code, bold and italic HTML built for text paragraphs.
- Chat.ChatPanel.SendChatMessage: the loading flag is shown only before and after the request, and the reply is a parameter. Renders in between are not modelled.
- Each `setTimeout` reset is an explicit event method (`SuccessTimeout`, `RejectionTimeout`) that may fire at any time. The three-second delay is not modelled.
- `handleFileUploadButtonClick` is not modelled beyond what `HandleFileUpload` covers. Neither is disabling the click while uploading.
- Socket connection set-up is left out. That covers joining on mount, the reconnect when `currentJobId` changes, and the default rooms.
- The job id test `data.jobId === currentJobId` treats the event's job id as a string, as its type declares.
- Page numbers are integers. `loc.pageNumber` values that are not integers, and `NaN` under `(a || 0) - (b || 0)`, are not modelled.
- Strings are sequences of Unicode scalar values. Where the code measures `length` (the worker's two `trim().length` tests), `Text.Utf16Length` counts UTF-16 code units. Otherwise code units are not modelled, nor are lone surrogates, on which `encodeURIComponent` would throw. After cleaning only ASCII remains, so the 2048 cut is the same either way.
- Server.ContextSplitsBack: retrieved contents that hold a blank line, or that end in a line break before the last one, cannot be told apart once joined with `"\n\n"`. The round trip is stated only for the others, which is all the join can give back.
- `Ingestion.VectorStore.records` holds the documents written through this handle. Documents already in an existing collection are not modelled.
- Metadata of stored documents is a flat string map. The nested `loc` object is not carried from the worker to the chat panel (`EndToEnd.ClientDoc` sets it to none).
- `server/index.js` (the older server) and `server/test-qdrant-cloud.js` (a network smoke test) are not part of this model. Neither are the page, layout and header components.
