/**
 * The metadata database: a `documents` table (auto-incremented id, title,
 * unique file path, content hash, creation time) and a `chunks` table
 * (document id, chunk index, metadata).
 *
 * Each method is one committed transaction; the rows are kept in insertion
 * order, which is the order of an unordered query.
 */
module Database {
  import opened Wrappers
  import opened Records
  import opened Lists

  datatype DocumentRow = DocumentRow(id: nat, title: string, filePath: string, fileHash: string, createdAt: string)

  datatype ChunkRow = ChunkRow(documentId: nat, chunkIndex: nat, metadata: Metadata)

  /** The first document with content hash `hash` (`filter_by(file_hash=...).first()`). */
  function FindByHash(docs: seq<DocumentRow>, hash: string): (r: Option<DocumentRow>)
    ensures r.Some? ==> r.value in docs && r.value.fileHash == hash
    ensures r.Some? ==> exists i :: 0 <= i < |docs| && docs[i] == r.value && forall j :: 0 <= j < i ==> docs[j].fileHash != hash
    ensures r.None? ==> forall d :: d in docs ==> d.fileHash != hash
  {
    if docs == [] then None
    else if docs[0].fileHash == hash then Some(docs[0])
    else FindByHash(docs[1..], hash)
  }

  /** The document with id `id` (`filter_by(id=...).first()`). */
  function FindById(docs: seq<DocumentRow>, id: nat): (r: Option<DocumentRow>)
    ensures r.Some? ==> r.value in docs && r.value.id == id
    ensures r.None? ==> forall d :: d in docs ==> d.id != id
  {
    if docs == [] then None
    else if docs[0].id == id then Some(docs[0])
    else FindById(docs[1..], id)
  }

  /** Whether a document row already uses `path`, which the unique constraint forbids twice. */
  predicate PathTaken(docs: seq<DocumentRow>, path: string) {
    exists d :: d in docs && d.filePath == path
  }

  /** The chunk rows of document `id`, in table order. */
  function ChunksOf(chunks: seq<ChunkRow>, id: nat): (r: seq<ChunkRow>)
    ensures forall c :: c in r <==> c in chunks && c.documentId == id
    ensures r == [] <==> forall c :: c in chunks ==> c.documentId != id
    ensures |r| <= |chunks|
  {
    if chunks == [] then []
    else (if chunks[0].documentId == id then [chunks[0]] else []) + ChunksOf(chunks[1..], id)
  }

  /** The chunk rows of all other documents, in table order. */
  function ChunksNotOf(chunks: seq<ChunkRow>, id: nat): (r: seq<ChunkRow>)
    ensures forall c :: c in r <==> c in chunks && c.documentId != id
  {
    if chunks == [] then []
    else (if chunks[0].documentId != id then [chunks[0]] else []) + ChunksNotOf(chunks[1..], id)
  }

  /** The document rows other than `id`, in table order. */
  function DocumentsNot(docs: seq<DocumentRow>, id: nat): (r: seq<DocumentRow>)
    ensures forall d :: d in r <==> d in docs && d.id != id
  {
    if docs == [] then []
    else (if docs[0].id != id then [docs[0]] else []) + DocumentsNot(docs[1..], id)
  }

  /**
   * Deleting a document splits the chunk table: its rows and the others'
   * rows together are the table, each row counted as often as it occurs.
   */
  lemma {:induction false} ChunksPartition(chunks: seq<ChunkRow>, id: nat)
    ensures multiset(ChunksOf(chunks, id)) + multiset(ChunksNotOf(chunks, id)) == multiset(chunks)
    decreases |chunks|
  {
    if chunks != [] {
      ChunksPartition(chunks[1..], id);
      var mine, others := ChunksOf(chunks[1..], id), ChunksNotOf(chunks[1..], id);
      assert chunks == [chunks[0]] + chunks[1..];
      assert multiset(chunks) == multiset{chunks[0]} + multiset(chunks[1..]);
      if chunks[0].documentId == id {
        assert ChunksOf(chunks, id) == [chunks[0]] + mine && ChunksNotOf(chunks, id) == others;
        assert multiset(ChunksOf(chunks, id)) == multiset{chunks[0]} + multiset(mine);
      } else {
        assert ChunksOf(chunks, id) == mine && ChunksNotOf(chunks, id) == [chunks[0]] + others;
        assert multiset(ChunksNotOf(chunks, id)) == multiset{chunks[0]} + multiset(others);
      }
    }
  }

  /** Both halves of the split keep the table's order. */
  lemma {:induction false} ChunksKeepOrder(chunks: seq<ChunkRow>, id: nat)
    ensures IsSubsequence(ChunksOf(chunks, id), chunks) && IsSubsequence(ChunksNotOf(chunks, id), chunks)
    decreases |chunks|
  {
    if chunks != [] {
      ChunksKeepOrder(chunks[1..], id);
      var mine, others := ChunksOf(chunks[1..], id), ChunksNotOf(chunks[1..], id);
      if mine != [] {
        assert mine[0] in mine;
      }
      if others != [] {
        assert others[0] in others;
      }
      ConsKeepsOrder(chunks, mine, chunks[0].documentId == id);
      ConsKeepsOrder(chunks, others, chunks[0].documentId != id);
    }
  }

  /** The remaining document rows keep the table's order. */
  lemma {:induction false} DocumentsNotKeepsOrder(docs: seq<DocumentRow>, id: nat)
    ensures IsSubsequence(DocumentsNot(docs, id), docs)
    decreases |docs|
  {
    if docs != [] {
      DocumentsNotKeepsOrder(docs[1..], id);
      var rest := DocumentsNot(docs[1..], id);
      if rest != [] {
        assert rest[0] in rest;
      }
      ConsKeepsOrder(docs, rest, docs[0].id != id);
    }
  }

  /** No two rows share an id or a path; ids are never above the last id handed out. */
  ghost predicate TablesValid(docs: seq<DocumentRow>, lastId: nat) {
    (forall d1, d2 :: d1 in docs && d2 in docs && (d1.id == d2.id || d1.filePath == d2.filePath) ==> d1 == d2)
    && (forall d :: d in docs ==> 1 <= d.id <= lastId)
  }

  class MetadataDb {
    var documents: seq<DocumentRow>
    var chunks: seq<ChunkRow>
    /** The largest document id handed out so far; ids are never reused. */
    var lastId: nat

    ghost predicate Valid()
      reads this
    {
      TablesValid(documents, lastId)
    }

    constructor()
      ensures Valid()
      ensures documents == [] && chunks == [] && lastId == 0
    {
      documents := [];
      chunks := [];
      lastId := 0;
    }

    /**
     * Adds and commits a document row with a fresh id, or fails, changing
     * nothing, when the file path is already in the table.
     */
    method InsertDocument(title: string, filePath: string, fileHash: string, createdAt: string)
      returns (id: Option<nat>)
      requires Valid()
      modifies this
      ensures Valid()
      ensures chunks == old(chunks)
      ensures PathTaken(old(documents), filePath) ==>
        id.None? && documents == old(documents) && lastId == old(lastId)
      ensures !PathTaken(old(documents), filePath) ==>
        id == Some(old(lastId) + 1) && lastId == old(lastId) + 1 &&
        documents == old(documents) + [DocumentRow(old(lastId) + 1, title, filePath, fileHash, createdAt)]
    {
      if exists d :: d in documents && d.filePath == filePath {
        return None;
      }
      lastId := lastId + 1;
      var row := DocumentRow(lastId, title, filePath, fileHash, createdAt);
      documents := documents + [row];
      id := Some(lastId);
    }

    /** Adds and commits chunk rows. */
    method InsertChunks(rows: seq<ChunkRow>)
      requires Valid()
      modifies this
      ensures Valid()
      ensures documents == old(documents) && lastId == old(lastId)
      ensures chunks == old(chunks) + rows
    {
      chunks := chunks + rows;
    }

    /** Deletes the chunk rows of document `id`, then the document row, and commits. */
    method DeleteDocument(id: nat)
      requires Valid()
      modifies this
      ensures Valid()
      ensures lastId == old(lastId)
      ensures chunks == ChunksNotOf(old(chunks), id)
      ensures documents == DocumentsNot(old(documents), id)
    {
      chunks := ChunksNotOf(chunks, id);
      DocumentsNotValid(documents, lastId, id);
      documents := DocumentsNot(documents, id);
    }
  }

  lemma DocumentsNotValid(docs: seq<DocumentRow>, lastId: nat, id: nat)
    requires TablesValid(docs, lastId)
    ensures TablesValid(DocumentsNot(docs, id), lastId)
  {
  }

  /**
   * After deleting document `id`: no document row with that id and no chunk
   * row of it remain, while every other document and chunk row stays
   * (deletion_service.py:64-68).
   */
  lemma DeletionRemovesOnlyDocument(docs: seq<DocumentRow>, chunks: seq<ChunkRow>, id: nat)
    ensures FindById(DocumentsNot(docs, id), id).None?
    ensures forall c :: c in ChunksNotOf(chunks, id) ==> c.documentId != id
    ensures forall d :: d in docs && d.id != id ==> d in DocumentsNot(docs, id)
    ensures forall c :: c in chunks && c.documentId != id ==> c in ChunksNotOf(chunks, id)
  {
  }

  /** A newly inserted document gets an id no existing row has, so lookups by the new id find only it. */
  lemma FreshIdUnused(docs: seq<DocumentRow>, lastId: nat)
    requires TablesValid(docs, lastId)
    ensures FindById(docs, lastId + 1).None?
  {
  }
}
