/**
 * The job body of the ingestion worker: parse the payload, check the file,
 * load the PDF, run a canary embedding, open the collection or create it with
 * one placeholder, keep the documents with more than ten characters after
 * trimming, cut them into batches of fifty and, batch by batch and document by
 * document, embed each cleaned document and add it to the store, skipping the
 * ones whose embedding is empty or whose embedding or insertion throws.
 *
 * The PDF loader, the file system, the embedding service and the vector store
 * are oracles: the fields of `Services`.
 */
module Ingestion {
  import opened Wrappers
  import opened Text
  import opened Seqs
  import Cleaning

  const BatchSize: nat := 50
  /** Documents need more than this many characters after trimming. */
  const MinContentLength: nat := 10
  /** The worker always writes to this one collection. */
  const WorkerCollection: string := "langchainjs-testing"
  const CanaryText: string := "This is a test document to verify the embedding API is working correctly."
  const EmptyCanaryMessage: string := "Embedding API returned an empty vector"
  const PlaceholderText: string := "Initial document to create collection"
  const PlaceholderMetadata: map<string, string> := map["text" := "This is a placeholder document"]

  datatype Document = Document(pageContent: string, metadata: map<string, string>)

  /** The fields the worker reads from the parsed queue payload. */
  datatype JobPayload = JobPayload(filename: Option<string>, path: Option<string>)

  /**
   * What the worker gets from the world. `embedQuery` gives the length of the
   * returned vector or the message of the error it throws; `openCollection`
   * and `createCollection` give `None` on success or the error's message;
   * `addDocuments` says whether the store accepted the documents.
   */
  datatype Services = Services(
    fileExists: string -> bool,
    loadPdf: string -> Result<seq<Document>, string>,
    embedQuery: string -> Result<nat, string>,
    openCollection: string -> Option<string>,
    createCollection: string -> Option<string>,
    addDocuments: seq<Document> -> bool)

  /** A finished job: the records written through the store, or the message of
      the error that failed the job. */
  datatype JobOutcome = Completed(records: seq<Document>) | Failed(message: string)

  /** A handle on the vector store collection the job writes to. `records` are
      the documents written through this handle, in order. */
  class VectorStore {
    const collectionName: string
    var records: seq<Document>

    /** `QdrantVectorStore.fromExistingCollection` */
    constructor FromExistingCollection(name: string)
      ensures collectionName == name && records == []
    {
      collectionName := name;
      records := [];
    }

    /** `QdrantVectorStore.fromTexts`: a collection seeded with one document per text. */
    constructor FromTexts(name: string, texts: seq<string>, metadata: map<string, string>)
      ensures collectionName == name
      ensures |records| == |texts|
      ensures forall i :: 0 <= i < |texts| ==> records[i] == Document(texts[i], metadata)
    {
      collectionName := name;
      records := seq(|texts|, i requires 0 <= i < |texts| => Document(texts[i], metadata));
    }

    /** `addDocuments`: appends the documents when the store accepts them, and
        reports the failure otherwise. */
    method AddDocuments(docs: seq<Document>, accepts: seq<Document> -> bool) returns (ok: bool)
      modifies this
      ensures ok == accepts(docs)
      ensures records == if ok then old(records) + docs else old(records)
    {
      ok := accepts(docs);
      if ok {
        records := records + docs;
      }
    }
  }

  // ---------------------------------------------------------------------------
  // Filtering and batching

  predicate IsValidDoc(d: Document) {
    d.pageContent != "" && Utf16Length(Trim(d.pageContent)) > MinContentLength
  }

  /** `docs.filter(doc => doc.pageContent && doc.pageContent.trim().length > 10)` */
  function ValidDocs(docs: seq<Document>): (r: seq<Document>)
    ensures forall d :: d in r <==> d in docs && Utf16Length(Trim(d.pageContent)) > MinContentLength
  {
    Filter(IsValidDoc, docs)
  }

  /** The filter keeps order: it works on each part of a concatenation
      separately, and keeps or drops a single document on its own. */
  lemma ValidDocsOrder(a: seq<Document>, b: seq<Document>, d: Document)
    ensures ValidDocs(a + b) == ValidDocs(a) + ValidDocs(b)
    ensures ValidDocs([d]) == if IsValidDoc(d) then [d] else []
  {
    FilterAppend(IsValidDoc, a, b);
    assert [d][1..] == [];
  }

  /** The slices `docs[i..i + size]` for `i = 0, size, 2 * size, ...`: every
      batch is non-empty, all but the last are full, and together they are
      `docs` in order. */
  function Batches<T>(docs: seq<T>, size: nat): seq<seq<T>>
    requires size > 0
    decreases |docs|
  {
    if docs == [] then []
    else if |docs| <= size then [docs]
    else [docs[..size]] + Batches(docs[size..], size)
  }

  lemma {:induction false} BatchesShape<T>(docs: seq<T>, size: nat)
    requires size > 0
    ensures Flatten(Batches(docs, size)) == docs
    ensures forall k :: 0 <= k < |Batches(docs, size)| ==> 0 < |Batches(docs, size)[k]| <= size
    ensures forall k :: 0 <= k < |Batches(docs, size)| - 1 ==> |Batches(docs, size)[k]| == size
    decreases |docs|
  {
    if docs == [] {
    } else if |docs| <= size {
      assert Flatten([docs]) == docs + Flatten<T>([]);
    } else {
      var rest := Batches(docs[size..], size);
      BatchesShape(docs[size..], size);
      assert docs == docs[..size] + docs[size..];
      assert ([docs[..size]] + rest)[1..] == rest;
    }
  }

  /** There are `ceil(n / size)` batches. */
  lemma {:induction false} BatchCount<T>(docs: seq<T>, size: nat)
    requires size > 0
    ensures |Batches(docs, size)| == (|docs| + size - 1) / size
    decreases |docs|
  {
    if docs == [] {
      DivUnique(size - 1, size, 0, size - 1);
    } else if |docs| <= size {
      DivUnique(|docs| + size - 1, size, 1, |docs| - 1);
    } else {
      var rest := docs[size..];
      BatchCount(rest, size);
      var q := (|rest| + size - 1) / size;
      var r := (|rest| + size - 1) % size;
      DivUnique(|docs| + size - 1, size, q + 1, r);
    }
  }

  lemma DivUnique(a: int, b: int, q: int, r: int)
    requires b > 0 && 0 <= r < b && a == b * q + r
    ensures a / b == q
  {
    var q' := a / b;
    var r' := a % b;
    assert b * (q' - q) == r - r';
    MulSign(b, q' - q);
  }

  lemma MulSign(b: int, d: int)
    requires b > 0
    ensures d >= 1 ==> b * d >= b
    ensures d <= -1 ==> b * d <= -b
  {
  }

  function Min(a: int, b: int): int {
    if a < b then a else b
  }

  /** The batching loop: `for (i = 0; i < n; i += size) batches.push(docs.slice(i, i + size))`. */
  method MakeBatches<T>(docs: seq<T>, size: nat) returns (batches: seq<seq<T>>)
    requires size > 0
    ensures batches == Batches(docs, size)
    ensures Flatten(batches) == docs
  {
    batches := [];
    var i := 0;
    while i < |docs|
      invariant 0 <= i
      invariant batches + Batches(docs[Min(i, |docs|)..], size) == Batches(docs, size)
      decreases |docs| - i
    {
      var end := Min(i + size, |docs|);
      BatchLoopStep(docs, batches, i, size);
      batches := batches + [docs[i..end]];
      i := i + size;
    }
    EmptyTail(docs, i);
    BatchesShape(docs, size);
  }

  lemma BatchLoopStep<T>(docs: seq<T>, batches: seq<seq<T>>, i: nat, size: nat)
    requires size > 0 && i < |docs|
    requires batches + Batches(docs[Min(i, |docs|)..], size) == Batches(docs, size)
    ensures (batches + [docs[i..Min(i + size, |docs|)]]) + Batches(docs[Min(i + size, |docs|)..], size) == Batches(docs, size)
  {
    BatchStep(docs, i, size);
    assert Min(i, |docs|) == i;
  }

  lemma EmptyTail<T>(docs: seq<T>, i: int)
    requires i >= |docs|
    ensures docs[Min(i, |docs|)..] == []
  {
  }

  /** One turn of the batching loop, on the specification side: the batch at
      `i` is the slice `docs.slice(i, i + size)`, clamped to the end. */
  lemma BatchStep<T>(docs: seq<T>, i: nat, size: nat)
    requires size > 0 && i < |docs|
    ensures Batches(docs[i..], size) == [docs[i..Min(i + size, |docs|)]] + Batches(docs[Min(i + size, |docs|)..], size)
  {
    var rest := docs[i..];
    if |rest| > size {
      assert rest[..size] == docs[i..i + size];
      assert rest[size..] == docs[i + size..];
    } else {
      assert Min(i + size, |docs|) == |docs|;
      assert docs[i..|docs|] == rest;
      assert docs[|docs|..] == [];
    }
  }

  // ---------------------------------------------------------------------------
  // The per-document loop

  function CleanedDocument(d: Document): Document {
    Document(Cleaning.CleanTextForEmbedding(d.pageContent), d.metadata)
  }

  /** The embedding of the cleaned document is non-empty and the store takes it. */
  predicate Stored(c: Document, svc: Services) {
    match svc.embedQuery(c.pageContent)
    case Ok(dimension) => dimension > 0 && svc.addDocuments([c])
    case Err(_) => false
  }

  /** The inner loop's `pageContent.trim().length < 10` guard. */
  predicate TooShort(d: Document) {
    d.pageContent == "" || Utf16Length(Trim(d.pageContent)) < MinContentLength
  }

  /** What one turn of the inner loop adds to the store. */
  function Step(d: Document, svc: Services): Option<Document> {
    if TooShort(d) then None
    else if Stored(CleanedDocument(d), svc) then Some(CleanedDocument(d))
    else None
  }

  /** The documents one turn of the inner loop appends: none or one. */
  function StepOutput(d: Document, svc: Services): seq<Document> {
    if Step(d, svc).Some? then [Step(d, svc).value] else []
  }

  /** The same without the `< 10` guard. */
  function StoreStep(d: Document, svc: Services): Option<Document> {
    if Stored(CleanedDocument(d), svc) then Some(CleanedDocument(d)) else None
  }

  function StepFn(svc: Services): Document -> Option<Document> {
    d => Step(d, svc)
  }

  function StoreStepFn(svc: Services): Document -> Option<Document> {
    d => StoreStep(d, svc)
  }

  /** What the per-document loop appends to the store for `docs`, in order. */
  function Ingest(docs: seq<Document>, svc: Services): seq<Document> {
    FilterMap(StepFn(svc), docs)
  }

  /** The cleaned documents whose embedding is non-empty and which the store
      accepts, in input order. */
  function StoredCleaned(docs: seq<Document>, svc: Services): seq<Document> {
    FilterMap(StoreStepFn(svc), docs)
  }

  /** On documents that passed the filter, the inner `< 10` guard never fires:
      the store receives the cleaned version of exactly the documents that were
      embedded and accepted, in input order. */
  lemma IngestOfValid(docs: seq<Document>, svc: Services)
    requires forall d :: d in docs ==> IsValidDoc(d)
    ensures forall d :: d in docs ==> !TooShort(d)
    ensures Ingest(docs, svc) == StoredCleaned(docs, svc)
  {
    forall i | 0 <= i < |docs| ensures Step(docs[i], svc) == StoreStep(docs[i], svc) {
      assert docs[i] in docs;
    }
    FilterMapAgree(StepFn(svc), StoreStepFn(svc), docs);
  }

  lemma IngestAppend(a: seq<Document>, b: seq<Document>, svc: Services)
    ensures Ingest(a + b, svc) == Ingest(a, svc) + Ingest(b, svc)
  {
    FilterMapAppend(StepFn(svc), a, b);
  }

  /** A document whose embedding is empty or fails, or which the store refuses,
      is skipped without affecting the documents around it. */
  lemma SkipIsIsolated(a: seq<Document>, d: Document, b: seq<Document>, svc: Services)
    requires !Stored(CleanedDocument(d), svc)
    ensures Ingest(a + [d] + b, svc) == Ingest(a, svc) + Ingest(b, svc)
  {
    IngestAppend(a + [d], b, svc);
    IngestOne(a, d, svc);
  }

  /** When every embedding succeeds and the store takes everything, every
      valid document is stored, cleaned, in order. */
  lemma AllStored(docs: seq<Document>, svc: Services)
    requires forall d :: d in docs ==> Stored(CleanedDocument(d), svc)
    ensures |StoredCleaned(docs, svc)| == |docs|
    ensures forall i :: 0 <= i < |docs| ==> StoredCleaned(docs, svc)[i] == CleanedDocument(docs[i])
  {
    forall i | 0 <= i < |docs| ensures StoreStep(docs[i], svc) == Some(CleanedDocument(docs[i])) {
      assert docs[i] in docs;
    }
    FilterMapAll(StoreStepFn(svc), docs);
  }

  /** The outer loop over the batches. */
  method ProcessBatches(batches: seq<seq<Document>>, store: VectorStore, svc: Services)
    modifies store
    ensures store.records == old(store.records) + Ingest(Flatten(batches), svc)
  {
    var i := 0;
    while i < |batches|
      invariant 0 <= i <= |batches|
      invariant store.records == old(store.records) + Ingest(Flatten(batches[..i]), svc)
    {
      ProcessBatch(batches[i], store, svc);
      IngestBatchesStep(batches, i, svc);
      SeqAssoc(old(store.records), Ingest(Flatten(batches[..i]), svc), Ingest(batches[i], svc));
      i := i + 1;
    }
    FullPrefix(batches);
  }

  /** Taking one more batch adds that batch's stored documents. */
  lemma IngestBatchesStep(batches: seq<seq<Document>>, i: nat, svc: Services)
    requires i < |batches|
    ensures Ingest(Flatten(batches[..i + 1]), svc) == Ingest(Flatten(batches[..i]), svc) + Ingest(batches[i], svc)
  {
    assert batches[..i + 1] == batches[..i] + [batches[i]];
    FlattenAppend(batches[..i], batches[i]);
    IngestAppend(Flatten(batches[..i]), batches[i], svc);
  }

  /** The inner loop over the documents of one batch. */
  method ProcessBatch(batch: seq<Document>, store: VectorStore, svc: Services)
    modifies store
    ensures store.records == old(store.records) + Ingest(batch, svc)
  {
    var j := 0;
    while j < |batch|
      invariant 0 <= j <= |batch|
      invariant store.records == old(store.records) + Ingest(batch[..j], svc)
    {
      ProcessDocument(batch[j], store, svc);
      IngestPrefixStep(batch, j, svc);
      SeqAssoc(old(store.records), Ingest(batch[..j], svc), StepOutput(batch[j], svc));
      j := j + 1;
    }
    FullPrefix(batch);
  }

  /** One document: skip it when it is too short, clean it, embed it, and add
      it when the embedding is non-empty; a thrown error skips it too. */
  method ProcessDocument(doc: Document, store: VectorStore, svc: Services)
    modifies store
    ensures store.records == old(store.records) + StepOutput(doc, svc)
  {
    if TooShort(doc) {
      return;
    }
    var cleanedContent := Cleaning.CleanTextForEmbedding(doc.pageContent);
    EmbedAndAdd(Document(cleanedContent, doc.metadata), store, svc);
  }

  /** Embeds a cleaned document and adds it when the embedding is non-empty;
      an empty embedding, a thrown error or a refused insertion adds nothing. */
  method EmbedAndAdd(cleanedDoc: Document, store: VectorStore, svc: Services)
    modifies store
    ensures store.records == old(store.records) + (if Stored(cleanedDoc, svc) then [cleanedDoc] else [])
  {
    var embedding := svc.embedQuery(cleanedDoc.pageContent);
    if embedding.Ok? && embedding.value > 0 {
      var _ := store.AddDocuments([cleanedDoc], svc.addDocuments);
    }
  }

  /** One more document of the batch adds what its step outputs. */
  lemma IngestPrefixStep(batch: seq<Document>, j: nat, svc: Services)
    requires j < |batch|
    ensures Ingest(batch[..j + 1], svc) == Ingest(batch[..j], svc) + StepOutput(batch[j], svc)
  {
    IngestOne(batch[..j], batch[j], svc);
    assert batch[..j] + [batch[j]] == batch[..j + 1];
  }

  lemma SeqAssoc<T>(a: seq<T>, b: seq<T>, c: seq<T>)
    ensures (a + b) + c == a + (b + c)
  {
  }

  lemma IngestOne(done: seq<Document>, doc: Document, svc: Services)
    ensures Ingest(done + [doc], svc) == Ingest(done, svc) + StepOutput(doc, svc)
  {
    var f := StepFn(svc);
    FilterMapAppend(f, done, [doc]);
    assert FilterMap(f, [doc]) == (if f(doc).Some? then [f(doc).value] else []) + FilterMap(f, [doc][1..]);
  }

  // ---------------------------------------------------------------------------
  // The job

  /** The message thrown when the file is missing; `${undefined}` reads `undefined`. */
  function MissingFileMessage(path: Option<string>): string {
    "File does not exist at path: " + path.GetOr("undefined")
  }

  /** The records the store starts with, or the error that failed the job:
      open the existing collection, else create it with one placeholder. */
  function OpenOrCreate(svc: Services): Result<seq<Document>, string> {
    if svc.openCollection(WorkerCollection).None? then Ok([])
    else
      match svc.createCollection(WorkerCollection)
      case Some(m) => Err(m)
      case None => Ok([Document(PlaceholderText, PlaceholderMetadata)])
  }

  /** The outcome of one job, step by step as the worker runs it. */
  function JobResult(payload: Result<JobPayload, string>, svc: Services): JobOutcome {
    match payload
    case Err(m) => Failed(m)
    case Ok(data) =>
      if data.path.None? || !svc.fileExists(data.path.value) then Failed(MissingFileMessage(data.path))
      else
        match svc.loadPdf(data.path.value)
        case Err(m) => Failed(m)
        case Ok(docs) =>
          match svc.embedQuery(CanaryText)
          case Err(m) => Failed(m)
          case Ok(dimension) =>
            if dimension == 0 then Failed(EmptyCanaryMessage)
            else
              match OpenOrCreate(svc)
              case Err(m) => Failed(m)
              case Ok(initial) => Completed(initial + Ingest(ValidDocs(docs), svc))
  }

  /** Opens the worker's collection, or creates it with the placeholder
      document when opening throws; the creation error fails the job. */
  method OpenStore(svc: Services) returns (store: VectorStore?, error: string)
    ensures OpenOrCreate(svc).Err? <==> store == null
    ensures store == null ==> error == OpenOrCreate(svc).error
    ensures store != null ==>
      fresh(store) && store.collectionName == WorkerCollection && store.records == OpenOrCreate(svc).value
  {
    error := "";
    var openError := svc.openCollection(WorkerCollection);
    if openError.None? {
      store := new VectorStore.FromExistingCollection(WorkerCollection);
    } else {
      var createError := svc.createCollection(WorkerCollection);
      if createError.Some? {
        store := null;
        error := createError.value;
      } else {
        store := new VectorStore.FromTexts(WorkerCollection, [PlaceholderText], PlaceholderMetadata);
      }
    }
  }

  /** Filters, batches and stores the loaded pages. */
  method StorePages(docs: seq<Document>, store: VectorStore, svc: Services)
    modifies store
    ensures store.records == old(store.records) + Ingest(ValidDocs(docs), svc)
  {
    var validDocs := ValidDocs(docs);
    var batches := MakeBatches(validDocs, BatchSize);
    ProcessBatches(batches, store, svc);
  }

  /** The worker's job handler. On success it hands back the store it wrote to. */
  method RunJob(payload: Result<JobPayload, string>, svc: Services) returns (outcome: JobOutcome, store: VectorStore?)
    ensures outcome == JobResult(payload, svc)
    ensures outcome.Failed? <==> store == null
    ensures store != null ==> fresh(store) && store.collectionName == WorkerCollection && store.records == outcome.records
  {
    store := null;
    if payload.Err? {
      outcome := Failed(payload.error);
      return;
    }
    var data := payload.value;
    if data.path.None? || !svc.fileExists(data.path.value) {
      outcome := Failed(MissingFileMessage(data.path));
      return;
    }
    var loaded := svc.loadPdf(data.path.value);
    if loaded.Err? {
      outcome := Failed(loaded.error);
      return;
    }
    var sample := svc.embedQuery(CanaryText);
    if sample.Err? {
      outcome := Failed(sample.error);
      return;
    }
    if sample.value == 0 {
      outcome := Failed(EmptyCanaryMessage);
      return;
    }
    var handle, failure := OpenStore(svc);
    if handle == null {
      outcome := Failed(failure);
      return;
    }
    StorePages(loaded.value, handle, svc);
    outcome := Completed(handle.records);
    store := handle;
  }

  // ---------------------------------------------------------------------------
  // Properties of a job

  /** A job completes exactly when the file exists, loads, the canary
      embedding is non-empty and the collection opens or can be created; a
      failing canary fails the job before any store exists. */
  lemma JobCompletion(payload: Result<JobPayload, string>, svc: Services)
    ensures JobResult(payload, svc).Completed? <==>
      && payload.Ok? && payload.value.path.Some?
      && svc.fileExists(payload.value.path.value)
      && svc.loadPdf(payload.value.path.value).Ok?
      && svc.embedQuery(CanaryText).Ok? && svc.embedQuery(CanaryText).value > 0
      && (svc.openCollection(WorkerCollection).None? || svc.createCollection(WorkerCollection).None?)
  {
  }

  /** A completed job wrote the placeholder (only when it had to create the
      collection) followed by the cleaned valid documents that were embedded
      and accepted, in page order. */
  lemma JobRecords(payload: Result<JobPayload, string>, svc: Services)
    requires JobResult(payload, svc).Completed?
    ensures var docs := svc.loadPdf(payload.value.path.value).value;
            var placeholder := if svc.openCollection(WorkerCollection).None? then []
                               else [Document(PlaceholderText, PlaceholderMetadata)];
            JobResult(payload, svc).records == placeholder + StoredCleaned(ValidDocs(docs), svc)
  {
    var docs := svc.loadPdf(payload.value.path.value).value;
    assert JobResult(payload, svc).records == OpenOrCreate(svc).value + Ingest(ValidDocs(docs), svc);
    IngestOfValid(ValidDocs(docs), svc);
  }

  /** A page that the cleaner leaves as is and that passes the length filter. */
  predicate KeptAsIs(p: string) {
    && Cleaning.CleanTextForEmbedding(p) == p
    && |p| > MinContentLength && !IsSpace(p[0]) && !IsSpace(p[|p| - 1])
  }

  /** A document with an empty page between two pages the cleaner leaves as
      is, where the canary and both pages embed and the store takes them: the
      empty page is dropped and the other two are stored unchanged, in order. */
  lemma EmptyPageDropped(path: string, svc: Services, p1: string, p3: string, m1: map<string, string>, m2: map<string, string>, m3: map<string, string>)
    requires KeptAsIs(p1) && KeptAsIs(p3)
    requires svc.fileExists(path)
    requires svc.loadPdf(path) == Ok([Document(p1, m1), Document("", m2), Document(p3, m3)])
    requires svc.embedQuery(CanaryText).Ok? && svc.embedQuery(CanaryText).value > 0
    requires svc.openCollection(WorkerCollection).None?
    requires Stored(Document(p1, m1), svc) && Stored(Document(p3, m3), svc)
    ensures JobResult(Ok(JobPayload(None, Some(path))), svc) == Completed([Document(p1, m1), Document(p3, m3)])
  {
    var d1 := Document(p1, m1);
    var d2 := Document("", m2);
    var d3 := Document(p3, m3);
    KeptPageValid(p1, m1);
    KeptPageValid(p3, m3);
    FilterThree(d1, d2, d3);
    StoredTwo(d1, d3, svc);
    CompletedWith(path, svc, d1, d2, d3);
  }

  /** A page of six or more characters above U+FFFF, such as mathematical
      italic letters, passes the `> 10` test: each counts as two code units. */
  lemma AstralPageValid(p: string, m: map<string, string>)
    requires |p| >= 6
    requires forall i :: 0 <= i < |p| ==> p[i] as int > 0xFFFF
    ensures IsValidDoc(Document(p, m))
  {
    TrimKeeps(p);
  }

  lemma KeptPageValid(p: string, m: map<string, string>)
    requires KeptAsIs(p)
    ensures IsValidDoc(Document(p, m))
  {
    TrimKeeps(p);
  }

  lemma FilterThree(d1: Document, d2: Document, d3: Document)
    requires IsValidDoc(d1) && !IsValidDoc(d2) && IsValidDoc(d3)
    ensures Filter(IsValidDoc, [d1, d2, d3]) == [d1, d3]
  {
    assert Filter(IsValidDoc, [d3]) == [d3] + Filter(IsValidDoc, [d3][1..]);
    assert [d2, d3][1..] == [d3];
    assert Filter(IsValidDoc, [d2, d3]) == Filter(IsValidDoc, [d3]);
    assert [d1, d2, d3][1..] == [d2, d3];
    assert Filter(IsValidDoc, [d1, d2, d3]) == [d1] + Filter(IsValidDoc, [d2, d3]);
  }

  lemma StoredTwo(d1: Document, d3: Document, svc: Services)
    requires Stored(CleanedDocument(d1), svc) && Stored(CleanedDocument(d3), svc)
    ensures StoredCleaned([d1, d3], svc) == [CleanedDocument(d1), CleanedDocument(d3)]
  {
    AllStored([d1, d3], svc);
  }

  lemma CompletedWith(path: string, svc: Services, d1: Document, d2: Document, d3: Document)
    requires svc.fileExists(path)
    requires svc.loadPdf(path) == Ok([d1, d2, d3])
    requires svc.embedQuery(CanaryText).Ok? && svc.embedQuery(CanaryText).value > 0
    requires svc.openCollection(WorkerCollection).None?
    requires ValidDocs([d1, d2, d3]) == [d1, d3]
    requires StoredCleaned([d1, d3], svc) == [d1, d3]
    ensures JobResult(Ok(JobPayload(None, Some(path))), svc) == Completed([d1, d3])
  {
    OpenedJob(path, svc, [d1, d2, d3]);
  }

  /** A job on an existing file with a working canary and an existing
      collection completes with the stored cleaned valid pages. */
  lemma OpenedJob(path: string, svc: Services, docs: seq<Document>)
    requires svc.fileExists(path)
    requires svc.loadPdf(path) == Ok(docs)
    requires svc.embedQuery(CanaryText).Ok? && svc.embedQuery(CanaryText).value > 0
    requires svc.openCollection(WorkerCollection).None?
    ensures JobResult(Ok(JobPayload(None, Some(path))), svc) == Completed(StoredCleaned(ValidDocs(docs), svc))
  {
    JobRecords(Ok(JobPayload(None, Some(path))), svc);
  }

  const IntroPage: string := "Intro text here."
  const ConclusionPage: string := "Conclusion text here."

  /** "Intro text here." and "Conclusion text here." pass through the
      cleaner and the filter as they are. */
  lemma IntroPageKept()
    ensures KeptAsIs(IntroPage)
  {
    PageKept(IntroPage);
  }

  lemma ConclusionPageKept()
    ensures KeptAsIs(ConclusionPage)
  {
    PageKept(ConclusionPage);
  }

  /** The pages "Intro text here.", "" and "Conclusion text here.": the job
      stores the first and the last page as they are, in that order. */
  lemma ThreePageScenario(path: string, svc: Services, m1: map<string, string>, m2: map<string, string>, m3: map<string, string>)
    requires svc.fileExists(path)
    requires svc.loadPdf(path) == Ok([Document(IntroPage, m1), Document("", m2), Document(ConclusionPage, m3)])
    requires svc.embedQuery(CanaryText).Ok? && svc.embedQuery(CanaryText).value > 0
    requires svc.openCollection(WorkerCollection).None?
    requires Stored(Document(IntroPage, m1), svc) && Stored(Document(ConclusionPage, m3), svc)
    ensures JobResult(Ok(JobPayload(None, Some(path))), svc)
         == Completed([Document(IntroPage, m1), Document(ConclusionPage, m3)])
  {
    IntroPageKept();
    ConclusionPageKept();
    EmptyPageDropped(path, svc, IntroPage, ConclusionPage, m1, m2, m3);
  }

  /** Clean text longer than the filter's bound, ending in a non-space
      character, passes through the cleaner and the filter as is. */
  lemma PageKept(p: string)
    requires forall i :: 0 <= i < |p| ==> Cleaning.IsCleanChar(p[i])
    requires forall i :: 0 < i < |p| ==> !(p[i - 1] == ' ' && p[i] == ' ')
    requires MinContentLength < |p| <= Cleaning.MaxLength && p[0] != ' ' && p[|p| - 1] != ' '
    ensures KeptAsIs(p)
  {
    assert Cleaning.IsCleanPrefix(p);
    Cleaning.CleanOfCleanPrefix(p);
  }
}
