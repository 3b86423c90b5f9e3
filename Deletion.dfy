/**
 * The deletion service: removes a document's vectors from the vector store,
 * then its chunk rows and its document row from the metadata database.
 *
 * The vector store goes first and its failures are swallowed; the metadata
 * side is one transaction that a failure rolls back, which cannot bring the
 * vectors back.
 */
module Deletion {
  import opened Wrappers
  import opened Records
  import opened Text
  import opened VectorStore
  import opened Database
  import opened DocumentProcessor
  import opened Ingestion

  datatype DeletionCode = DocumentNotFound | DeletionError

  /** The result dictionary of `delete_document`, without its human-readable message. */
  datatype DeletionResult = DeletionResult(
    success: bool,
    documentId: int,
    title: Option<string>,
    chunksDeleted: nat,
    error: Option<DeletionCode>)

  /** Where the metadata session raises, if anywhere. */
  datatype MetadataFault =
    | NoFault
    /** While looking the document up or counting its chunks, before any write. */
    | LookupFault
    /** While deleting the rows or committing, after the vector delete. */
    | WriteFault

  function Failed(documentId: int, code: DeletionCode): DeletionResult {
    DeletionResult(false, documentId, None, 0, Some(code))
  }

  /** Whether a document row has id `documentId`; a negative id matches none. */
  predicate Known(docs: seq<DocumentRow>, documentId: int) {
    documentId >= 0 && FindById(docs, documentId).Some?
  }

  class DeletionService {
    const db: MetadataDb
    const store: VectorStore

    ghost predicate Valid()
      reads this, db, store
    {
      db.Valid() && store.Valid()
    }

    constructor(db: MetadataDb, store: VectorStore)
      ensures this.db == db && this.store == store
    {
      this.db := db;
      this.store := store;
    }

    /** The metadata tables are as they were. */
    twostate predicate DbUntouched()
      reads this, db
    {
      db.documents == old(db.documents) && db.chunks == old(db.chunks) && db.lastId == old(db.lastId)
    }

    /** The vector store holds the same records and saw no new backend call. */
    twostate predicate StoreUntouched()
      reads this, store
    {
      store.Contents() == old(store.Contents()) && store.calls == old(store.calls)
    }

    /**
     * `delete_document`. An unknown id changes nothing and reports
     * DOCUMENT_NOT_FOUND. Otherwise the title and the chunk-row count are
     * read first; the vector delete for `str(documentId)` runs next, and
     * `vectorError`, an exception it may raise, is swallowed; the chunk rows
     * and the document row are then deleted and committed. `fault` places a
     * metadata-side exception: it rolls the session back and reports
     * DELETION_ERROR with no title and no count (deletion_service.py:14-90).
     */
    method DeleteDocument(documentId: int, vectorError: Option<string>, fault: MetadataFault)
      returns (r: DeletionResult)
      requires Valid()
      modifies db, store
      ensures Valid()
      ensures fault == LookupFault ==>
        r == Failed(documentId, DeletionError) && DbUntouched() && StoreUntouched()
      ensures fault != LookupFault && !Known(old(db.documents), documentId) ==>
        r == Failed(documentId, DocumentNotFound) && DbUntouched() && StoreUntouched()
      ensures fault != LookupFault && Known(old(db.documents), documentId) ==>
        && (vectorError.Some? ==> StoreUntouched())
        && (vectorError.None? ==>
              && store.Contents() == Deleted(old(store.Contents()), IntToString(documentId))
              && store.calls == old(store.calls) + DeleteCalls(old(store.Contents()), IntToString(documentId)))
        && (fault == WriteFault ==> r == Failed(documentId, DeletionError) && DbUntouched())
        && (fault == NoFault ==>
              && r == DeletionResult(true, documentId, Some(FindById(old(db.documents), documentId).value.title),
                                     |ChunksOf(old(db.chunks), documentId)|, None)
              && db.documents == DocumentsNot(old(db.documents), documentId)
              && db.chunks == ChunksNotOf(old(db.chunks), documentId)
              && db.lastId == old(db.lastId))
    {
      if fault == LookupFault {
        return Failed(documentId, DeletionError);
      }
      if documentId < 0 {
        return Failed(documentId, DocumentNotFound);
      }
      var document := FindById(db.documents, documentId);
      if document.None? {
        return Failed(documentId, DocumentNotFound);
      }
      var title := document.value.title;
      var chunkCount := |ChunksOf(db.chunks, documentId)|;

      // The count the vector store returns is not used, and its errors are swallowed.
      var vectorDeleted := store.DeleteDocument(IntToString(documentId), vectorError);

      if fault == WriteFault {
        return Failed(documentId, DeletionError);
      }
      db.DeleteDocument(documentId);
      return DeletionResult(true, documentId, Some(title), chunkCount, None);
    }
  }

  /**
   * A successful deletion leaves no row of the document: a second deletion
   * of the same id finds nothing, and the chunk count it would take is zero
   * (deletion_service.py:36-46, 64-68).
   */
  lemma DeletedDocumentUnknown(docs: seq<DocumentRow>, chunks: seq<ChunkRow>, documentId: nat)
    ensures !Known(DocumentsNot(docs, documentId), documentId)
    ensures ChunksOf(ChunksNotOf(chunks, documentId), documentId) == []
  {
    DeletionRemovesOnlyDocument(docs, chunks, documentId);
  }

  /**
   * The join between the two stores: the vectors ingestion stored for
   * document `d` carry `document_id == str(d)`, so deleting `d` removes every
   * one of them, while a record stored for another document `e` stays with
   * its contents (ingestion_service.py:154-157; deletion_service.py:49, 57;
   * vector_store.py:95-102).
   */
  lemma IngestedVectorsDeleted(c: Collection, chunks: seq<DocChunk>, d: nat, embeddings: seq<Embedding>)
    requires WellFormed(c)
    requires Numbered(chunks) && |embeddings| >= |chunks|
    ensures forall i :: 0 <= i < |chunks| ==>
      VectorId(d, i) !in Deleted(AddAll(c, VectorChunks(chunks, d, embeddings)), IntToString(d)).records
  {
    var added := AddAll(c, VectorChunks(chunks, d, embeddings));
    PreparedChunksStored(chunks, d, embeddings, c);
    DeleteKeepsOthers(added, IntToString(d));
    forall i | 0 <= i < |chunks|
      ensures VectorId(d, i) !in Deleted(added, IntToString(d)).records
    {
      assert MetaMatches(added.records[VectorId(d, i)].metadata, IntToString(d));
    }
  }

  /** Metadata rewritten for document `e` does not name any other document `d`. */
  lemma RewrittenNamesOnlyItsDocument(m: Metadata, d: nat, e: nat)
    requires d != e
    ensures !MetaMatches(Some(Rewritten(m, e)), IntToString(d))
  {
    if IntToString(e) == IntToString(d) {
      assert NatToString(e) == NatToString(d);
      NatToStringInjective(e, d);
    }
  }

  /** Deleting document `d` keeps every vector stored for another document, unchanged. */
  lemma OtherDocumentVectorsKept(c: Collection, chunks: seq<DocChunk>, e: nat, embeddings: seq<Embedding>, d: nat)
    requires WellFormed(c)
    requires Numbered(chunks) && |embeddings| >= |chunks|
    requires d != e
    ensures forall i :: 0 <= i < |chunks| ==>
      var added := AddAll(c, VectorChunks(chunks, e, embeddings));
      && VectorId(e, i) in Deleted(added, IntToString(d)).records
      && Deleted(added, IntToString(d)).records[VectorId(e, i)] == added.records[VectorId(e, i)]
  {
    var added := AddAll(c, VectorChunks(chunks, e, embeddings));
    PreparedChunksStored(chunks, e, embeddings, c);
    DeleteKeepsOthers(added, IntToString(d));
    forall i | 0 <= i < |chunks|
      ensures VectorId(e, i) in Deleted(added, IntToString(d)).records
    {
      RewrittenNamesOnlyItsDocument(chunks[i].metadata, d, e);
    }
  }
}
