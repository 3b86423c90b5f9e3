/**
 * The HTTP endpoints' decision logic: the query flow (embed, search, filter
 * by relevance, generate), upload validation and the mapping of ingestion
 * and deletion errors to status codes, and the file type shown in the
 * document listing.
 *
 * Routing, request parsing, timing and temporary-file plumbing are not
 * modelled; an endpoint's answer is a response value or the status code of
 * the HTTP error it raises.
 */
module Api {
  import opened Wrappers
  import opened Records
  import opened Lists
  import opened Text
  import opened Paths
  import Config
  import opened Cache
  import opened Embeddings
  import opened VectorStore
  import opened Database
  import opened LlmService
  import opened Ingestion
  import opened Deletion

  /** An `HTTPException`, by its status code. */
  datatype HttpError = HttpError(status: nat)

  // ---------------------------------------------------------------------
  // Query

  /** The body of a successful query, without its latency. */
  datatype QueryResponse = QueryResponse(answer: string, citations: seq<Citation>, retrievedChunks: seq<RetrievedChunk>)

  const NothingRetrievedAnswer: string :=
    "I couldn't find any relevant information in the documents to answer your question. Please try rephrasing your query or check if relevant documents have been ingested."

  /** The low-relevance answer, with the threshold rendered as a percentage (0.5 * 100 prints as 50.0). */
  const LowRelevanceAnswer: string :=
    "I found some information, but the relevance is low (similarity < 50.0%). Please try rephrasing your question or check if more relevant documents are available."

  /** `chunk.get("similarity_score", 0)`. */
  function Score(c: RetrievedChunk): real {
    match c.similarityScore
    case Some(s) => s
    case None => 0.0
  }

  /** The chunks whose score reaches the similarity threshold, in retrieval order. */
  function FilterRelevant(chunks: seq<RetrievedChunk>): (r: seq<RetrievedChunk>)
    ensures forall c :: c in r <==> c in chunks && Score(c) >= Config.SimilarityThreshold
    ensures |r| <= |chunks|
  {
    if chunks == [] then []
    else (if Score(chunks[0]) >= Config.SimilarityThreshold then [chunks[0]] else []) + FilterRelevant(chunks[1..])
  }

  /** The filter only drops chunks: what it keeps is a subsequence of what was retrieved (api.py:223-226). */
  lemma {:induction false} FilterRelevantKeepsOrder(chunks: seq<RetrievedChunk>)
    ensures IsSubsequence(FilterRelevant(chunks), chunks)
  {
    if chunks != [] {
      var r := FilterRelevant(chunks);
      var rest := FilterRelevant(chunks[1..]);
      FilterRelevantKeepsOrder(chunks[1..]);
      if Score(chunks[0]) >= Config.SimilarityThreshold {
        assert r == [chunks[0]] + rest;
        assert r[1..] == rest;
      } else {
        assert r == rest;
        if r != [] {
          assert r[0] in rest;
        }
      }
    }
  }

  /** The backend hits whose cosine distance is at most one minus the similarity threshold, in order. */
  function CloseHits(hits: seq<Hit>): (r: seq<Hit>)
    ensures forall h :: h in r <==> h in hits && h.distance <= 1.0 - Config.SimilarityThreshold
  {
    if hits == [] then []
    else (if hits[0].distance <= 1.0 - Config.SimilarityThreshold then [hits[0]] else []) + CloseHits(hits[1..])
  }

  lemma ResultsCons(hits: seq<Hit>)
    requires hits != []
    ensures Results(hits) == [ToRetrieved(hits[0])] + Results(hits[1..])
  {
    assert Results(hits)[1..] == Results(hits[1..]);
  }

  /**
   * Filtering the search results by score keeps exactly the results of the
   * hits within distance `1 - SIMILARITY_THRESHOLD`, in search order: the
   * score the store reports is one minus the distance (vector_store.py:72),
   * and the endpoint keeps scores at or above the threshold.
   */
  lemma {:induction false} FilterRelevantByDistance(hits: seq<Hit>)
    ensures FilterRelevant(Results(hits)) == Results(CloseHits(hits))
    decreases |hits|
  {
    if hits != [] {
      FilterRelevantByDistance(hits[1..]);
      var head := ToRetrieved(hits[0]);
      var rest := Results(hits[1..]);
      ResultsCons(hits);
      assert ([head] + rest)[0] == head && ([head] + rest)[1..] == rest;
      var keep := hits[0].distance <= 1.0 - Config.SimilarityThreshold;
      assert keep <==> Score(head) >= Config.SimilarityThreshold;
      assert FilterRelevant(Results(hits)) == (if keep then [head] else []) + FilterRelevant(rest);
      var close := CloseHits(hits);
      assert close == (if keep then [hits[0]] else []) + CloseHits(hits[1..]);
      if keep {
        ResultsCons(close);
        assert close[0] == hits[0] && close[1..] == CloseHits(hits[1..]);
      }
    }
  }

  /**
   * What the query endpoint answers once the query text is embedded and the
   * search has returned `retrieved`: the not-found answer when nothing came
   * back, the low-relevance answer when every chunk is below the threshold,
   * and otherwise the generator's answer over the relevant chunks alone; a
   * generator failure is a 500 (api.py:214-253).
   */
  function Respond(query: string, retrieved: seq<RetrievedChunk>, model: Model): Result<QueryResponse, HttpError> {
    if retrieved == [] then Ok(QueryResponse(NothingRetrievedAnswer, [], []))
    else
      var filtered := FilterRelevant(retrieved);
      if filtered == [] then Ok(QueryResponse(LowRelevanceAnswer, [], retrieved))
      else
        match AnswerOf(query, filtered, model)
        case Err(_) => Err(HttpError(500))
        case Ok(a) => Ok(QueryResponse(a.answer, a.citations, retrieved))
  }

  /**
   * The answer generated over the relevant chunks cites only them: every
   * citation is that of a retrieved chunk whose score reaches the threshold,
   * and its id is among the filtered ids (api.py:223-238).
   */
  lemma FilteredCitations(query: string, retrieved: seq<RetrievedChunk>, model: Model)
    requires AnswerOf(query, FilterRelevant(retrieved), model).Ok?
    ensures forall k :: 0 <= k < |AnswerOf(query, FilterRelevant(retrieved), model).value.citations| ==>
      (exists c :: c in retrieved && Score(c) >= Config.SimilarityThreshold && c.metadata.Some? &&
        AnswerOf(query, FilterRelevant(retrieved), model).value.citations[k] == CitationOf(c))
    ensures forall k :: 0 <= k < |AnswerOf(query, FilterRelevant(retrieved), model).value.citations| ==>
      AnswerOf(query, FilterRelevant(retrieved), model).value.citations[k].id in LlmService.ChunkIds(FilterRelevant(retrieved))
  {
    var filtered := FilterRelevant(retrieved);
    var cs := AnswerOf(query, filtered, model).value.citations;
    AnswerCitesRetrievedChunks(query, filtered, model);
    forall k | 0 <= k < |cs|
      ensures exists c :: c in retrieved && Score(c) >= Config.SimilarityThreshold && c.metadata.Some? && cs[k] == CitationOf(c)
      ensures cs[k].id in LlmService.ChunkIds(filtered)
    {
      var j :| 0 <= j < |filtered| && cs[k] == CitationOf(filtered[j]);
      assert filtered[j] in filtered;
      assert LlmService.ChunkIds(filtered)[j] == filtered[j].id;
    }
  }

  /**
   * A query response is grounded in the search: it carries the whole
   * retrieved list (or none when nothing was retrieved), the two fallback
   * answers cite nothing, and every citation is that of a retrieved chunk
   * whose score reaches the threshold, so citation ids are among the
   * filtered ids, which are among the retrieved ids (api.py:214-253).
   */
  lemma ResponseGrounded(query: string, retrieved: seq<RetrievedChunk>, model: Model)
    requires Respond(query, retrieved, model).Ok?
    ensures retrieved == [] ==> Respond(query, retrieved, model).value == QueryResponse(NothingRetrievedAnswer, [], [])
    ensures retrieved != [] ==> Respond(query, retrieved, model).value.retrievedChunks == retrieved
    ensures retrieved != [] && FilterRelevant(retrieved) == [] ==>
      Respond(query, retrieved, model).value == QueryResponse(LowRelevanceAnswer, [], retrieved)
    ensures forall k :: 0 <= k < |Respond(query, retrieved, model).value.citations| ==>
      (exists c :: c in retrieved && Score(c) >= Config.SimilarityThreshold && c.metadata.Some? &&
        Respond(query, retrieved, model).value.citations[k] == CitationOf(c))
    ensures forall k :: 0 <= k < |Respond(query, retrieved, model).value.citations| ==>
      Respond(query, retrieved, model).value.citations[k].id in LlmService.ChunkIds(FilterRelevant(retrieved))
  {
    var filtered := FilterRelevant(retrieved);
    if retrieved != [] && filtered != [] {
      FilteredCitations(query, retrieved, model);
      assert Respond(query, retrieved, model).value.citations == AnswerOf(query, filtered, model).value.citations;
    }
  }

  lemma {:induction false} TrimLeftAllSpace(s: string)
    requires forall i :: 0 <= i < |s| ==> IsSpace(s[i])
    ensures TrimLeft(s) == []
  {
    if s != [] {
      TrimLeftAllSpace(s[1..]);
    }
  }

  /**
   * Stripped query text is empty exactly when the text is empty or all
   * whitespace, which the endpoint rejects (api.py:190-193).
   */
  lemma BlankQueryRejected(text: string)
    ensures Strip(text) == [] <==> forall i :: 0 <= i < |text| ==> IsSpace(text[i])
  {
    if forall i :: 0 <= i < |text| ==> IsSpace(text[i]) {
      TrimLeftAllSpace(text);
    }
    if Strip(text) == [] {
      TrimLeftRemovesSpace(text);
      TrimRightRemovesSpace(TrimLeft(text));
    }
  }

  // ---------------------------------------------------------------------
  // Upload

  const AllowedExtensions: set<string> := {".pdf", ".txt", ".md"}

  /** 50 MiB. */
  const MaxFileSize: nat := 50 * 1024 * 1024

  /** The body of a successful upload. */
  datatype UploadResponse = UploadResponse(documentId: Option<nat>, title: Option<string>, chunksCreated: nat, alreadyExists: bool)

  /** The lowercased suffix of the uploaded file's name; "" when it has no name. */
  function Extension(filename: Option<string>): string {
    if Truthy(filename) then Lower(Suffix(filename.value)) else ""
  }

  /**
   * The checks before ingestion, in order: the extension, before the body is
   * read; the size; an empty body (api.py:273-327).
   */
  function Precheck(filename: Option<string>, content: Bytes): (r: Option<HttpError>)
    ensures r.Some? ==> r.value.status == 400
    ensures r.None? <==> Extension(filename) in AllowedExtensions && 0 < |content| <= MaxFileSize
  {
    if Extension(filename) !in AllowedExtensions then Some(HttpError(400))
    else if |content| > MaxFileSize then Some(HttpError(400))
    else if |content| == 0 then Some(HttpError(400))
    else None
  }

  /** The original filename passed on to ingestion: the name, or `None` when it is empty. */
  function OriginalName(filename: Option<string>): Option<string> {
    if Truthy(filename) then filename else None
  }

  /** The title passed on to ingestion: the given one, or the filename's stem when none was given (api.py:331-334). */
  function UploadTitle(title: Option<string>, filename: Option<string>): (r: Option<string>)
    ensures Truthy(title) ==> r == title
    ensures !Truthy(title) && Truthy(filename) ==> r == Some(Stem(filename.value))
    ensures !Truthy(title) && !Truthy(filename) ==> r == title
  {
    if !Truthy(title) && Truthy(filename) then Some(Stem(filename.value)) else title
  }

  /** The temporary file holding the uploaded body. */
  function TempFile(tempPath: string, content: Bytes): FileSystem {
    map[tempPath := FileInfo(true, content)]
  }

  /** The status of a failed ingestion: 400 for a missing file, an unsupported type or a bad format, 500 otherwise. */
  function UploadStatus(error: Option<ErrorCode>): (status: nat)
    ensures status == 400 <==>
      error == Some(FileNotFound) || error == Some(UnsupportedFileType) || error == Some(ProcessingError)
    ensures status == 400 || status == 500
  {
    if error == Some(FileNotFound) || error == Some(UnsupportedFileType) then 400
    else if error == Some(ProcessingError) then 400
    else 500
  }

  // ---------------------------------------------------------------------
  // Delete

  /** The body of a successful deletion. */
  datatype DeleteResponse = DeleteResponse(documentId: int, title: Option<string>, chunksDeleted: nat)

  /** The status of a failed deletion: 404 for an unknown document, 500 otherwise. */
  function DeleteStatus(error: Option<DeletionCode>): (status: nat)
    ensures status == 404 <==> error == Some(DocumentNotFound)
    ensures status == 404 || status == 500
  {
    if error == Some(DocumentNotFound) then 404 else 500
  }

  // ---------------------------------------------------------------------
  // Listing

  /** `s.lstrip(c)`. */
  function LStrip(s: string, c: char): (r: string)
    ensures |r| <= |s| && r == s[|s| - |r|..]
    ensures forall i :: 0 <= i < |s| - |r| ==> s[i] == c
    ensures r == [] || r[0] != c
  {
    if s != [] && s[0] == c then LStrip(s[1..], c) else s
  }

  /** A listed document's file type: its path's lowercased suffix without the dot, or "unknown" (api.py:404). */
  function FileType(path: string): string {
    var t := LStrip(Lower(Suffix(path)), '.');
    if t == "" then "unknown" else t
  }

  /** A lowercased suffix is a dot followed by at least one character and no further dot. */
  lemma LowerSuffixShape(path: string)
    requires Suffix(path) != ""
    ensures |Lower(Suffix(path))| >= 2 && Lower(Suffix(path))[0] == '.'
    ensures forall i :: 1 <= i < |Lower(Suffix(path))| ==> Lower(Suffix(path))[i] != '.'
  {
    SuffixShape(path);
    var s := Suffix(path);
    forall i | 1 <= i < |s| ensures Lower(s)[i] != '.' {
      assert s[i] in s[1..];
    }
  }

  /** A path without an extension lists as "unknown"; otherwise the type is the lowercased extension after its one dot. */
  lemma FileTypeOfSuffix(path: string)
    ensures Suffix(path) == "" ==> FileType(path) == "unknown"
    ensures Suffix(path) != "" ==>
      && FileType(path) == Lower(Suffix(path))[1..]
      && FileType(path) != ""
      && '.' !in FileType(path)
  {
    var l := Lower(Suffix(path));
    if Suffix(path) != "" {
      LowerSuffixShape(path);
      assert LStrip(l, '.') == LStrip(l[1..], '.');
      assert LStrip(l[1..], '.') == l[1..];
    }
  }

  // ---------------------------------------------------------------------
  // The endpoints

  /**
   * The services behind the endpoints. The query path has its own embedding
   * service (with the query cache) and reads the vector store that ingestion
   * writes and deletion prunes; `model` is the language model.
   */
  class Endpoints {
    const embedder: EmbeddingService
    const store: VectorStore
    const model: Model
    const ingestion: IngestionService
    const deletion: DeletionService

    constructor(embedder: EmbeddingService, store: VectorStore, model: Model,
                ingestion: IngestionService, deletion: DeletionService)
      ensures this.embedder == embedder && this.store == store && this.model == model
      ensures this.ingestion == ingestion && this.deletion == deletion
    {
      this.embedder := embedder;
      this.store := store;
      this.model := model;
      this.ingestion := ingestion;
      this.deletion := deletion;
    }

    /**
     * `POST /query`. Blank text is a 400 before any embedding request. An
     * embedding failure is a 500, and so is `searchError`, an exception
     * raised by the search; otherwise the answer is `Respond` over the
     * top-k search results for the embedded, stripped text
     * (api.py:178-258).
     */
    method Query(text: string, now: real, searchError: bool) returns (r: Result<QueryResponse, HttpError>)
      requires embedder.Valid()
      modifies embedder, embedder.cache
      ensures embedder.Valid()
      ensures Strip(text) == [] ==>
        && r == Err(HttpError(400))
        && embedder.requests == old(embedder.requests)
        && (embedder.cache != null ==> embedder.cache.State() == old(embedder.cache.State()))
      ensures Strip(text) != [] ==>
        match old(embedder.Outcome(Strip(text), now))
        case Err(_) => r == Err(HttpError(500))
        case Ok(e) =>
          r == (if searchError then Err(HttpError(500))
                else Respond(Strip(text), Results(store.queryBackend(store.records, e, Config.TopK)), model))
      ensures Strip(text) != [] && embedder.cache == null ==>
        embedder.requests == old(embedder.requests) + [One(Strip(text))]
      ensures Strip(text) != [] && embedder.cache != null &&
              Cache.Lookup(old(embedder.cache.State()), Strip(text), now, DefaultTtlSeconds).Some? ==>
        embedder.requests == old(embedder.requests) && embedder.cache.State() == old(embedder.cache.State())
      ensures Strip(text) != [] && embedder.cache != null &&
              Cache.Lookup(old(embedder.cache.State()), Strip(text), now, DefaultTtlSeconds).None? ==>
        && embedder.requests == old(embedder.requests) + [One(Strip(text))]
        && (old(embedder.Outcome(Strip(text), now)).Ok? ==>
              Put(AfterLookup(old(embedder.cache.State()), Strip(text), now, DefaultTtlSeconds), Strip(text),
                  old(embedder.Outcome(Strip(text), now)).value, now, DefaultMaxSize) == Some(embedder.cache.State()))
        && (old(embedder.Outcome(Strip(text), now)).Err? ==>
              embedder.cache.State() == AfterLookup(old(embedder.cache.State()), Strip(text), now, DefaultTtlSeconds))
    {
      var query := Strip(text);
      if query == [] {
        return Err(HttpError(400));
      }
      var embedding := embedder.GenerateEmbedding(query, now);
      if embedding.Err? {
        return Err(HttpError(500));
      }
      if searchError {
        return Err(HttpError(500));
      }
      r := SearchAndAnswer(query, embedding.value);
    }

    /** The part of `POST /query` after the embedding: search the top k, then `Respond` (api.py:207-253). */
    method SearchAndAnswer(query: string, embedding: Embedding) returns (r: Result<QueryResponse, HttpError>)
      ensures r == Respond(query, Results(store.queryBackend(store.records, embedding, Config.TopK)), model)
    {
      var retrieved := store.Search(embedding, None);
      if retrieved == [] {
        return Ok(QueryResponse(NothingRetrievedAnswer, [], []));
      }
      var filtered := FilterRelevant(retrieved);
      if filtered == [] {
        return Ok(QueryResponse(LowRelevanceAnswer, [], retrieved));
      }
      var answer := GenerateAnswer(query, filtered, model);
      if answer.Err? {
        return Err(HttpError(500));
      }
      return Ok(QueryResponse(answer.value.answer, answer.value.citations, retrieved));
    }

    /**
     * `POST /documents/upload`. A failed `Precheck` is a 400 and writes
     * nothing. Otherwise the body is written to `tempPath`, the fresh
     * temporary file, and ingested under `UploadTitle`; a failed ingestion
     * maps through `UploadStatus`, a successful one is echoed. `createdAt`
     * and `vectorError` are passed on to ingestion (api.py:261-381).
     */
    method Upload(filename: Option<string>, content: Bytes, title: Option<string>, tempPath: string,
                  createdAt: string, vectorError: Option<string>)
      returns (r: Result<UploadResponse, HttpError>)
      requires ingestion.Valid()
      modifies ingestion.db, ingestion.store, ingestion.embedder
      ensures ingestion.Valid()
      ensures Precheck(filename, content).Some? ==>
        r == Err(Precheck(filename, content).value) && ingestion.Snap() == old(ingestion.Snap())
      ensures Precheck(filename, content).None? ==>
        var a := ingestion.Admission(TempFile(tempPath, content), tempPath, UploadTitle(title, filename),
                                     OriginalName(filename), old(ingestion.db.documents));
        && (a.Rejected? ==> r == Err(HttpError(UploadStatus(Some(a.code)))) && ingestion.Snap() == old(ingestion.Snap()))
        && (a.Duplicate? ==>
              r == Ok(UploadResponse(Some(a.existing.id), Some(a.existing.title), 0, true)) && ingestion.Snap() == old(ingestion.Snap()))
        && (a.Admitted? ==>
              && (r.Ok? <==>
                    !PathTaken(old(ingestion.db.documents), tempPath) && ingestion.Embedded(a.chunks) &&
                    (vectorError.None? || a.chunks == []))
              && (r.Ok? ==> r.value == UploadResponse(Some(old(ingestion.db.lastId) + 1), Some(a.title), |a.chunks|, false))
              && (r.Err? ==> r.error == HttpError(500))
              && ingestion.Committed(old(ingestion.Snap()), tempPath, a.fileHash, a.title, a.chunks, createdAt, vectorError))
    {
      var precheck := Precheck(filename, content);
      if precheck.Some? {
        return Err(precheck.value);
      }
      var result := ingestion.IngestDocument(TempFile(tempPath, content), tempPath, UploadTitle(title, filename),
                                             OriginalName(filename), createdAt, vectorError);
      if !result.success {
        return Err(HttpError(UploadStatus(result.error)));
      }
      return Ok(UploadResponse(result.documentId, result.title, result.chunksCreated, result.alreadyExists));
    }

    /**
     * `DELETE /documents/{id}`: the deletion service's outcome, with
     * DOCUMENT_NOT_FOUND as 404 and any other failure as 500; the stores
     * change as `DeletionService.DeleteDocument` says (api.py:441-471).
     */
    method Delete(documentId: int, vectorError: Option<string>, fault: MetadataFault)
      returns (r: Result<DeleteResponse, HttpError>)
      requires deletion.Valid()
      modifies deletion.db, deletion.store
      ensures deletion.Valid()
      ensures fault == LookupFault ==>
        r == Err(HttpError(500)) && deletion.DbUntouched() && deletion.StoreUntouched()
      ensures fault != LookupFault && !Known(old(deletion.db.documents), documentId) ==>
        r == Err(HttpError(404)) && deletion.DbUntouched() && deletion.StoreUntouched()
      ensures fault != LookupFault && Known(old(deletion.db.documents), documentId) ==>
        && (vectorError.Some? ==> deletion.StoreUntouched())
        && (vectorError.None? ==>
              && deletion.store.Contents() == Deleted(old(deletion.store.Contents()), IntToString(documentId))
              && deletion.store.calls == old(deletion.store.calls) + DeleteCalls(old(deletion.store.Contents()), IntToString(documentId)))
        && (fault == WriteFault ==> r == Err(HttpError(500)) && deletion.DbUntouched())
        && (fault == NoFault ==>
              && r == Ok(DeleteResponse(documentId, Some(FindById(old(deletion.db.documents), documentId).value.title),
                                        |ChunksOf(old(deletion.db.chunks), documentId)|))
              && deletion.db.documents == DocumentsNot(old(deletion.db.documents), documentId)
              && deletion.db.chunks == ChunksNotOf(old(deletion.db.chunks), documentId)
              && deletion.db.lastId == old(deletion.db.lastId))
    {
      var result := deletion.DeleteDocument(documentId, vectorError, fault);
      if !result.success {
        return Err(HttpError(DeleteStatus(result.error)));
      }
      return Ok(DeleteResponse(result.documentId, result.title, result.chunksDeleted));
    }
  }
}
