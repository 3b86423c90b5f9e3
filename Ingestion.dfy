/**
 * Document ingestion: validate the file, skip content already ingested,
 * extract pages, choose a title, chunk, commit the document row, embed the
 * chunks, commit the chunk rows and add the chunks to the vector store.
 *
 * The file system is a map from absolute path to (readable, contents); text
 * extraction and the content hash are oracles of the file contents.
 */
module Ingestion {
  import opened Wrappers
  import opened Lists
  import opened Records
  import opened Text
  import opened Paths
  import opened DocumentProcessor
  import opened TitleExtraction
  import opened Embeddings
  import opened VectorStore
  import opened Database

  type Bytes = seq<bv8>

  datatype FileInfo = FileInfo(readable: bool, contents: Bytes)

  type FileSystem = map<string, FileInfo>

  /** Page extraction: the contents and whether to parse them as PDF; an error stands for an exception. */
  type Extractor = (Bytes, bool) -> Result<DocumentData, string>

  datatype ErrorCode = FileNotFound | FileNotReadable | UnsupportedFileType | ProcessingError | IngestionError

  /** The result dictionary, without its human-readable message. */
  datatype IngestResult = IngestResult(
    success: bool,
    documentId: Option<nat>,
    title: Option<string>,
    chunksCreated: nat,
    error: Option<ErrorCode>,
    alreadyExists: bool)

  function Failure(code: ErrorCode): IngestResult {
    IngestResult(false, None, None, 0, Some(code), false)
  }

  const ValidExtensions: seq<string> := [".pdf", ".txt", ".md"]

  /** Python truthiness of an optional string: present and non-empty. */
  predicate Truthy(s: Option<string>) {
    s.Some? && s.value != ""
  }

  /**
   * The document title: a truthy custom title, else the stem of a truthy
   * original filename, else a truthy extracted title, else the stem of the
   * stored path (ingestion_service.py:116-129).
   */
  function ChooseTitle(customTitle: Option<string>, originalFilename: Option<string>, pages: seq<Page>, path: string): string {
    if Truthy(customTitle) then customTitle.value
    else if Truthy(originalFilename) then Stem(originalFilename.value)
    else if Truthy(ExtractTitle(pages)) then ExtractTitle(pages).value
    else Stem(path)
  }

  /** The title is always one of the four candidates, tried in order. */
  lemma TitlePrecedence(customTitle: Option<string>, originalFilename: Option<string>, pages: seq<Page>, path: string)
    ensures var t := ChooseTitle(customTitle, originalFilename, pages, path);
      (Truthy(customTitle) ==> t == customTitle.value)
      && (!Truthy(customTitle) && Truthy(originalFilename) ==> t == Stem(originalFilename.value))
      && (!Truthy(customTitle) && !Truthy(originalFilename) && Truthy(ExtractTitle(pages)) ==>
            t == ExtractTitle(pages).value)
      && (!Truthy(customTitle) && !Truthy(originalFilename) && !Truthy(ExtractTitle(pages)) ==> t == Stem(path))
  {
  }

  // ---------------------------------------------------------------------
  // Vector ids

  /** The vector-store id of chunk `chunkIndex` of document `documentId`. */
  function VectorId(documentId: nat, chunkIndex: nat): string {
    "doc_" + NatToString(documentId) + "_chunk_" + NatToString(chunkIndex)
  }

  /** Two digit strings each followed by a non-digit split a string the same way. */
  lemma {:induction false} DigitRunSplit(x: string, rx: string, y: string, ry: string)
    requires AllDigits(x) && AllDigits(y)
    requires rx != [] && ry != [] && !IsDigit(rx[0]) && !IsDigit(ry[0])
    requires x + rx == y + ry
    ensures x == y && rx == ry
    decreases |x|
  {
    var s := x + rx;
    assert s == y + ry;
    // The first character is a digit exactly when the digit run in front of it is non-empty.
    assert x != [] ==> s[0] == x[0] && IsDigit(s[0]);
    assert x == [] ==> s == rx && !IsDigit(s[0]);
    assert y != [] ==> s[0] == y[0] && IsDigit(s[0]);
    assert y == [] ==> s == ry && !IsDigit(s[0]);
    if x != [] {
      assert s[1..] == x[1..] + rx && s[1..] == y[1..] + ry;
      assert AllDigits(x[1..]) && AllDigits(y[1..]);
      DigitRunSplit(x[1..], rx, y[1..], ry);
      assert x == [x[0]] + x[1..] && y == [y[0]] + y[1..];
    }
  }

  /** Distinct (document, chunk) pairs get distinct vector ids (ingestion_service.py:154). */
  lemma VectorIdInjective(d1: nat, c1: nat, d2: nat, c2: nat)
    requires VectorId(d1, c1) == VectorId(d2, c2)
    ensures d1 == d2 && c1 == c2
  {
    var n1, n2 := NatToString(d1), NatToString(d2);
    var m1, m2 := NatToString(c1), NatToString(c2);
    assert VectorId(d1, c1) == "doc_" + (n1 + ("_chunk_" + m1));
    assert VectorId(d2, c2) == "doc_" + (n2 + ("_chunk_" + m2));
    assert n1 + ("_chunk_" + m1) == ("doc_" + (n1 + ("_chunk_" + m1)))[4..];
    assert n2 + ("_chunk_" + m2) == ("doc_" + (n2 + ("_chunk_" + m2)))[4..];
    DigitRunSplit(n1, "_chunk_" + m1, n2, "_chunk_" + m2);
    assert m1 == ("_chunk_" + m1)[7..];
    assert m2 == ("_chunk_" + m2)[7..];
    NatToStringInjective(d1, d2);
    NatToStringInjective(c1, c2);
  }

  // ---------------------------------------------------------------------
  // Preparing the chunks for the stores

  /**
   * The chunk texts sent for embedding, in chunk order. These are the
   * processor's chunks, before they have ids and embeddings; the same
   * projection of the vector store's own chunk record is `ChunkTexts`.
   */
  function Texts(chunks: seq<DocChunk>): (r: seq<string>)
    ensures |r| == |chunks| && forall i :: 0 <= i < |r| ==> r[i] == chunks[i].text
  {
    seq(|chunks|, i requires 0 <= i < |chunks| => chunks[i].text)
  }

  /** A chunk's metadata with `document_id` rewritten to the committed id. */
  function Rewritten(m: Metadata, documentId: nat): Metadata {
    m["document_id" := Str(IntToString(documentId))]
  }

  function VectorChunkOf(c: DocChunk, documentId: nat, e: Embedding): NewChunk {
    NewChunk(VectorId(documentId, c.chunkIndex), c.text, e, Rewritten(c.metadata, documentId))
  }

  function ChunkRowOf(c: DocChunk, documentId: nat): ChunkRow {
    ChunkRow(documentId, c.chunkIndex, Rewritten(c.metadata, documentId))
  }

  /** The records handed to the vector store: chunk `i` with embedding `i`. */
  function VectorChunks(chunks: seq<DocChunk>, documentId: nat, embeddings: seq<Embedding>): (r: seq<NewChunk>)
    requires |embeddings| >= |chunks|
    ensures |r| == |chunks|
  {
    seq(|chunks|, i requires 0 <= i < |chunks| => VectorChunkOf(chunks[i], documentId, embeddings[i]))
  }

  /** The rows committed to the chunks table, in chunk order. */
  function ChunkRows(chunks: seq<DocChunk>, documentId: nat): (r: seq<ChunkRow>)
    ensures |r| == |chunks|
  {
    seq(|chunks|, i requires 0 <= i < |chunks| => ChunkRowOf(chunks[i], documentId))
  }

  /** Chunks numbered 0..N-1 in order, each with its index in its metadata, as `create_chunks` makes them. */
  predicate Numbered(chunks: seq<DocChunk>) {
    forall i :: 0 <= i < |chunks| ==>
      chunks[i].chunkIndex == i && "chunk_index" in chunks[i].metadata && chunks[i].metadata["chunk_index"] == Int(i)
  }

  lemma PreparedIdsDistinct(chunks: seq<DocChunk>, documentId: nat, embeddings: seq<Embedding>)
    requires Numbered(chunks) && |embeddings| >= |chunks|
    ensures Distinct(ChunkIds(VectorChunks(chunks, documentId, embeddings)))
  {
    var ids := ChunkIds(VectorChunks(chunks, documentId, embeddings));
    forall i, j | 0 <= i < j < |ids| ensures ids[i] != ids[j] {
      assert ids[i] == VectorId(documentId, i) && ids[j] == VectorId(documentId, j);
      if ids[i] == ids[j] {
        VectorIdInjective(documentId, i, documentId, j);
      }
    }
  }

  /**
   * Numbered chunks get distinct vector ids, so each chunk is stored under
   * `doc_{id}_chunk_{i}` with its text, its embedding and metadata whose
   * `document_id` is the committed id; the chunk row carries the same index
   * and metadata (ingestion_service.py:148-177).
   */
  lemma PreparedChunksStored(chunks: seq<DocChunk>, documentId: nat, embeddings: seq<Embedding>, c: Collection)
    requires WellFormed(c)
    requires Numbered(chunks) && |embeddings| >= |chunks|
    ensures WellFormed(AddAll(c, VectorChunks(chunks, documentId, embeddings)))
    ensures forall i :: 0 <= i < |chunks| ==>
      && VectorId(documentId, i) in AddAll(c, VectorChunks(chunks, documentId, embeddings)).records
      && AddAll(c, VectorChunks(chunks, documentId, embeddings)).records[VectorId(documentId, i)]
         == VectorRecord(chunks[i].text, embeddings[i], Some(Rewritten(chunks[i].metadata, documentId)))
    ensures forall i :: 0 <= i < |chunks| ==>
      ChunkRows(chunks, documentId)[i] == ChunkRow(documentId, i, Rewritten(chunks[i].metadata, documentId))
  {
    var vs := VectorChunks(chunks, documentId, embeddings);
    PreparedIdsDistinct(chunks, documentId, embeddings);
    AddedChunksStored(c, vs);
    forall i | 0 <= i < |chunks|
      ensures VectorId(documentId, i) in AddAll(c, vs).records
      ensures AddAll(c, vs).records[VectorId(documentId, i)]
         == VectorRecord(chunks[i].text, embeddings[i], Some(Rewritten(chunks[i].metadata, documentId)))
    {
      assert vs[i].id == VectorId(documentId, i);
      assert ChunkIds(vs)[i] == vs[i].id;
    }
  }

  /** The rewritten metadata names the committed document and keeps every other key (ingestion_service.py:157). */
  lemma RewrittenMetadata(m: Metadata, documentId: nat)
    ensures Rewritten(m, documentId).Keys == m.Keys + {"document_id"}
    ensures Rewritten(m, documentId)["document_id"] == Str(IntToString(documentId))
    ensures forall k :: k in m && k != "document_id" ==> Rewritten(m, documentId)[k] == m[k]
  {
  }

  /** `create_chunks` output is numbered. */
  lemma DocumentChunksNumbered(tok: Tokenizer, pages: seq<Page>, title: string)
    ensures Numbered(DocumentChunks(tok, pages, title, 0))
  {
    ChunkIndicesContiguous(tok, pages, title, 0);
  }

  /**
   * The loop that gives chunk `i` its vector id, embedding `i` and rewritten
   * metadata, for the vector store and for the chunks table; `None` where
   * the embedding list runs out and indexing it raises
   * (ingestion_service.py:152-172).
   */
  method Prepare(chunks: seq<DocChunk>, documentId: nat, embeddings: seq<Embedding>)
    returns (prepared: Option<(seq<NewChunk>, seq<ChunkRow>)>)
    ensures prepared.Some? <==> |embeddings| >= |chunks|
    ensures prepared.Some? ==>
      prepared.value.0 == VectorChunks(chunks, documentId, embeddings) &&
      prepared.value.1 == ChunkRows(chunks, documentId)
  {
    var vectorChunks: seq<NewChunk> := [];
    var rows: seq<ChunkRow> := [];
    var i := 0;
    while i < |chunks|
      invariant 0 <= i <= |chunks| && i <= |embeddings|
      invariant |vectorChunks| == i && |rows| == i
      invariant forall j :: 0 <= j < i ==>
        vectorChunks[j] == VectorChunkOf(chunks[j], documentId, embeddings[j]) &&
        rows[j] == ChunkRowOf(chunks[j], documentId)
    {
      if i >= |embeddings| {
        return None;
      }
      var metadata := Rewritten(chunks[i].metadata, documentId);
      vectorChunks := vectorChunks + [NewChunk(VectorId(documentId, chunks[i].chunkIndex), chunks[i].text,
        embeddings[i], metadata)];
      rows := rows + [ChunkRow(documentId, chunks[i].chunkIndex, metadata)];
      i := i + 1;
    }
    assert vectorChunks == VectorChunks(chunks, documentId, embeddings);
    assert rows == ChunkRows(chunks, documentId);
    return Some((vectorChunks, rows));
  }

  // ---------------------------------------------------------------------
  // The service

  /** The state the ingestion service writes to, as of one moment. */
  datatype Snapshot = Snapshot(
    documents: seq<DocumentRow>,
    chunks: seq<ChunkRow>,
    lastId: nat,
    contents: Collection,
    calls: seq<BackendCall>,
    requests: seq<Request>)

  /** Where ingestion stands after the checks that precede any write. */
  datatype Admission =
    | Rejected(code: ErrorCode)
    | Duplicate(existing: DocumentRow)
    | Admitted(fileHash: string, title: string, chunks: seq<DocChunk>)

  class IngestionService {
    const tokenizer: Tokenizer
    const extract: Extractor
    /** The content hash (SHA-256 of the file bytes in the source), as an oracle. */
    const hashOf: Bytes -> string
    const db: MetadataDb
    const embedder: EmbeddingService
    const store: VectorStore

    ghost predicate Valid()
      reads this, db, store, embedder, embedder.cache
    {
      db.Valid() && store.Valid() && embedder.Valid()
    }

    constructor(tokenizer: Tokenizer, extract: Extractor, hashOf: Bytes -> string,
                db: MetadataDb, embedder: EmbeddingService, store: VectorStore)
      ensures this.tokenizer == tokenizer && this.extract == extract && this.hashOf == hashOf
      ensures this.db == db && this.embedder == embedder && this.store == store
    {
      this.tokenizer := tokenizer;
      this.extract := extract;
      this.hashOf := hashOf;
      this.db := db;
      this.embedder := embedder;
      this.store := store;
    }

    /**
     * The checks before any write, in source order: existence, readability,
     * content hash (a known hash wins over everything after it), extension
     * (an unsupported one fails on `str.suffix` and becomes an ingestion
     * error), extraction; then the title and the chunks
     * (ingestion_service.py:52-132).
     */
    function Admission(fs: FileSystem, filePath: string, customTitle: Option<string>,
                       originalFilename: Option<string>, docs: seq<DocumentRow>): Admission
    {
      if filePath !in fs then Rejected(FileNotFound)
      else if !fs[filePath].readable then Rejected(FileNotReadable)
      else
        var fileHash := hashOf(fs[filePath].contents);
        match FindByHash(docs, fileHash)
        case Some(d) => Duplicate(d)
        case None =>
          var suffix := Lower(Suffix(filePath));
          if suffix !in ValidExtensions then Rejected(IngestionError)
          else match extract(fs[filePath].contents, suffix == ".pdf")
            case Err(_) => Rejected(ProcessingError)
            case Ok(data) =>
              var title := ChooseTitle(customTitle, originalFilename, data.pages, filePath);
              Admitted(fileHash, title, DocumentChunks(tokenizer, data.pages, title, 0))
    }

    /**
     * The result `ingest_document` reports after admission `a`, given whether
     * the path is already in the table and the last id handed out: the code
     * of a rejection; the existing document, flagged as already there, for a
     * duplicate; for an admitted file, success under the next id with its
     * chunk count, unless the path is taken, the embeddings fall short or the
     * vector add raises, which are ingestion errors.
     */
    function Reply(a: Admission, pathTaken: bool, lastId: nat, vectorError: Option<string>): IngestResult {
      match a
      case Rejected(code) => Failure(code)
      case Duplicate(d) => IngestResult(true, Some(d.id), Some(d.title), 0, None, true)
      case Admitted(_, title, chunks) =>
        if !pathTaken && Embedded(chunks) && (vectorError.None? || chunks == [])
        then IngestResult(true, Some(lastId + 1), Some(title), |chunks|, None, false)
        else Failure(IngestionError)
    }

    /** Everything the service writes to: both tables, the last id, the vector store and the provider requests. */
    function Snap(): Snapshot
      reads this, db, store, embedder
    {
      Snapshot(db.documents, db.chunks, db.lastId, store.Contents(), store.calls, embedder.requests)
    }

    /** The embedding batch the service obtains for `chunks`. */
    function Batch(chunks: seq<DocChunk>): Result<seq<Embedding>, string> {
      if chunks == [] then Ok([]) else embedder.provider.embedMany(Texts(chunks))
    }

    /** Whether the batch gives every chunk an embedding. */
    predicate Embedded(chunks: seq<DocChunk>) {
      Batch(chunks).Ok? && |Batch(chunks).value| >= |chunks|
    }

    /** The checks of `ingest_document` that precede any write, run in order on the file system `fs`. */
    method Admit(fs: FileSystem, filePath: string, customTitle: Option<string>, originalFilename: Option<string>,
                 docs: seq<DocumentRow>)
      returns (a: Admission)
      ensures a == Admission(fs, filePath, customTitle, originalFilename, docs)
    {
      if filePath !in fs {
        return Rejected(FileNotFound);
      }
      var file := fs[filePath];
      if !file.readable {
        return Rejected(FileNotReadable);
      }
      var fileHash := hashOf(file.contents);
      var existing := FindByHash(docs, fileHash);
      if existing.Some? {
        return Duplicate(existing.value);
      }
      var suffix := Lower(Suffix(filePath));
      if suffix !in ValidExtensions {
        return Rejected(IngestionError);
      }
      var extracted := extract(file.contents, suffix == ".pdf");
      if extracted.Err? {
        return Rejected(ProcessingError);
      }
      var title := ChooseTitle(customTitle, originalFilename, extracted.value.pages, filePath);
      var chunks := CreateChunks(tokenizer, DocumentData(title, extracted.value.pages), 0);
      return Admitted(fileHash, title, chunks);
    }

    /**
     * The stores after the writes for an admitted file. A taken path changes
     * nothing. Otherwise the document row is appended under the next id and
     * one batch request is sent for non-empty chunks; the chunk rows follow
     * only when every chunk got an embedding, and the vectors only when, in
     * addition, the backend does not raise.
     */
    predicate Committed(before: Snapshot, filePath: string, fileHash: string, title: string, chunks: seq<DocChunk>,
                        createdAt: string, vectorError: Option<string>)
      reads this, db, store, embedder
    {
      && (PathTaken(before.documents, filePath) ==> Snap() == before)
      && (!PathTaken(before.documents, filePath) ==>
            var id := before.lastId + 1;
            && db.lastId == id
            && db.documents == before.documents + [DocumentRow(id, title, filePath, fileHash, createdAt)]
            && embedder.requests == before.requests + (if chunks == [] then [] else [Many(Texts(chunks))])
            && (!Embedded(chunks) ==>
                  db.chunks == before.chunks && store.Contents() == before.contents && store.calls == before.calls)
            && (Embedded(chunks) ==>
                  && db.chunks == before.chunks + ChunkRows(chunks, id)
                  && (vectorError.Some? && chunks != [] ==>
                        store.Contents() == before.contents && store.calls == before.calls)
                  && (vectorError.None? || chunks == [] ==>
                        && store.Contents() == AddAll(before.contents, VectorChunks(chunks, id, Batch(chunks).value))
                        && store.calls == before.calls + AddCalls(VectorChunks(chunks, id, Batch(chunks).value)))))
    }

    /**
     * The writes of `ingest_document` once a file is admitted: the document
     * row is committed first (or refused by the unique file-path
     * constraint), the chunk rows next and the vectors last, and a failure at
     * a later step leaves the earlier commits in place. `createdAt` is the
     * creation timestamp and `vectorError` an exception the vector backend
     * may raise on add (ingestion_service.py:134-187).
     */
    method Commit(filePath: string, fileHash: string, title: string, chunks: seq<DocChunk>,
                  createdAt: string, vectorError: Option<string>)
      returns (r: IngestResult)
      requires Valid()
      modifies db, store, embedder
      ensures Valid()
      ensures r == Reply(Admitted(fileHash, title, chunks), PathTaken(old(db.documents), filePath), old(db.lastId), vectorError)
      ensures Committed(old(Snap()), filePath, fileHash, title, chunks, createdAt, vectorError)
    {
      var inserted := db.InsertDocument(title, filePath, fileHash, createdAt);
      if inserted.None? {
        return Failure(IngestionError);
      }
      var documentId := inserted.value;

      var embeddings := embedder.GenerateEmbeddingsBatch(Texts(chunks));
      assert embeddings == Batch(chunks);
      if embeddings.Err? {
        return Failure(IngestionError);
      }
      var prepared := Prepare(chunks, documentId, embeddings.value);
      if prepared.None? {
        return Failure(IngestionError);
      }
      var (vectorChunks, rows) := prepared.value;
      db.InsertChunks(rows);
      var error := store.AddChunks(vectorChunks, vectorError);
      if error.Some? {
        return Failure(IngestionError);
      }
      return IngestResult(true, Some(documentId), Some(title), |chunks|, None, false);
    }

    /**
     * `ingest_document`: rejections and duplicates write nothing; an admitted
     * file goes through `Commit` with the hash, title and chunks the checks
     * produced (ingestion_service.py:21-200).
     */
    method IngestDocument(fs: FileSystem, filePath: string, customTitle: Option<string>,
                          originalFilename: Option<string>, createdAt: string, vectorError: Option<string>)
      returns (r: IngestResult)
      requires Valid()
      modifies db, store, embedder
      ensures Valid()
      ensures r == Reply(Admission(fs, filePath, customTitle, originalFilename, old(db.documents)),
                         PathTaken(old(db.documents), filePath), old(db.lastId), vectorError)
      ensures !Admission(fs, filePath, customTitle, originalFilename, old(db.documents)).Admitted? ==> Snap() == old(Snap())
      ensures Admission(fs, filePath, customTitle, originalFilename, old(db.documents)).Admitted? ==>
        var a := Admission(fs, filePath, customTitle, originalFilename, old(db.documents));
        Committed(old(Snap()), filePath, a.fileHash, a.title, a.chunks, createdAt, vectorError)
    {
      var a := Admit(fs, filePath, customTitle, originalFilename, db.documents);
      match a
      case Rejected(code) =>
        r := Failure(code);
      case Duplicate(d) =>
        r := IngestResult(true, Some(d.id), Some(d.title), 0, None, true);
      case Admitted(fileHash, title, chunks) =>
        r := Commit(filePath, fileHash, title, chunks, createdAt, vectorError);
    }
  }

  /** Ingestion never reports UNSUPPORTED_FILE_TYPE: that branch fails earlier with an ingestion error. */
  lemma NoUnsupportedFileType(s: IngestionService, fs: FileSystem, filePath: string,
                              customTitle: Option<string>, originalFilename: Option<string>, docs: seq<DocumentRow>)
    ensures s.Admission(fs, filePath, customTitle, originalFilename, docs) != Rejected(UnsupportedFileType)
    ensures (filePath in fs && fs[filePath].readable &&
      FindByHash(docs, s.hashOf(fs[filePath].contents)).None? &&
      Lower(Suffix(filePath)) !in ValidExtensions) ==>
      s.Admission(fs, filePath, customTitle, originalFilename, docs) == Rejected(IngestionError)
  {
  }

  /** A known content hash makes ingestion a duplicate whatever the file's extension (ingestion_service.py:74-97). */
  lemma DuplicateBeforeExtensionCheck(s: IngestionService, fs: FileSystem, filePath: string,
                                      customTitle: Option<string>, originalFilename: Option<string>, docs: seq<DocumentRow>)
    requires filePath in fs && fs[filePath].readable
    requires FindByHash(docs, s.hashOf(fs[filePath].contents)).Some?
    ensures s.Admission(fs, filePath, customTitle, originalFilename, docs) ==
      Duplicate(FindByHash(docs, s.hashOf(fs[filePath].contents)).value)
    ensures s.Admission(fs, filePath, customTitle, originalFilename, docs).existing.fileHash ==
      s.hashOf(fs[filePath].contents)
  {
  }
}
