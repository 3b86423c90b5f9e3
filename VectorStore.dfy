/**
 * The vector store: a collection of records keyed by chunk id, each holding
 * the chunk text, its embedding and its metadata.
 *
 * The backend's nearest-neighbour query is an oracle; the store's own logic
 * is in how it forwards chunks, formats hits and selects records to delete.
 * Every mutating backend call is recorded, so that "no call" can be stated.
 */
module VectorStore {
  import opened Wrappers
  import opened Lists
  import opened Records
  import Config

  /** A stored record. Records added by the service always carry metadata. */
  datatype VectorRecord = VectorRecord(text: string, embedding: Embedding, metadata: Option<Metadata>)

  /** A chunk handed to `add_chunks`. */
  datatype NewChunk = NewChunk(id: string, text: string, embedding: Embedding, metadata: Metadata)

  /** One hit of the backend query: the record and its distance to the query. */
  datatype Hit = Hit(id: string, text: string, metadata: Option<Metadata>, distance: real)

  /** A mutating call made to the backend collection. */
  datatype BackendCall =
    | AddCall(ids: seq<string>, texts: seq<string>, embeddings: seq<Embedding>, metadatas: seq<Metadata>)
    | DeleteCall(ids: seq<string>)

  /** The backend's nearest-neighbour query: the contents, the query vector and the number of results. */
  type QueryBackend = (map<string, VectorRecord>, Embedding, nat) -> seq<Hit>

  /** The collection's records together with their ids in insertion order. */
  datatype Collection = Collection(records: map<string, VectorRecord>, ids: seq<string>)

  ghost predicate WellFormed(c: Collection) {
    Distinct(c.ids) && c.records.Keys == Elems(c.ids)
  }

  function RecordOf(ch: NewChunk): VectorRecord {
    VectorRecord(ch.text, ch.embedding, Some(ch.metadata))
  }

  /** Adds one chunk; an id already present is overwritten in place. */
  function AddOne(c: Collection, ch: NewChunk): Collection {
    Collection(c.records[ch.id := RecordOf(ch)], if ch.id in c.records then c.ids else c.ids + [ch.id])
  }

  /** The collection after adding `chunks` in order. */
  function AddAll(c: Collection, chunks: seq<NewChunk>): Collection
    decreases |chunks|
  {
    if chunks == [] then c else AddAll(AddOne(c, chunks[0]), chunks[1..])
  }

  function ChunkIds(chunks: seq<NewChunk>): (r: seq<string>)
    ensures |r| == |chunks| && forall i :: 0 <= i < |r| ==> r[i] == chunks[i].id
  {
    seq(|chunks|, i requires 0 <= i < |chunks| => chunks[i].id)
  }

  /** The `documents` list of an add call: the texts of the store's chunk records, in order. */
  function ChunkTexts(chunks: seq<NewChunk>): (r: seq<string>)
    ensures |r| == |chunks| && forall i :: 0 <= i < |r| ==> r[i] == chunks[i].text
  {
    seq(|chunks|, i requires 0 <= i < |chunks| => chunks[i].text)
  }

  function ChunkEmbeddings(chunks: seq<NewChunk>): (r: seq<Embedding>)
    ensures |r| == |chunks| && forall i :: 0 <= i < |r| ==> r[i] == chunks[i].embedding
  {
    seq(|chunks|, i requires 0 <= i < |chunks| => chunks[i].embedding)
  }

  function ChunkMetadatas(chunks: seq<NewChunk>): (r: seq<Metadata>)
    ensures |r| == |chunks| && forall i :: 0 <= i < |r| ==> r[i] == chunks[i].metadata
  {
    seq(|chunks|, i requires 0 <= i < |chunks| => chunks[i].metadata)
  }

  /** The backend calls an add of `chunks` makes: none for an empty list, otherwise one with the parallel projections. */
  function AddCalls(chunks: seq<NewChunk>): (r: seq<BackendCall>)
    ensures |r| <= 1 && (r == [] <==> chunks == [])
  {
    if chunks == [] then [] else [AddCall(ChunkIds(chunks), ChunkTexts(chunks), ChunkEmbeddings(chunks), ChunkMetadatas(chunks))]
  }

  lemma AddOneWellFormed(c: Collection, ch: NewChunk)
    requires WellFormed(c)
    ensures WellFormed(AddOne(c, ch))
  {
    var r := AddOne(c, ch);
    if ch.id !in c.records {
      assert ch.id !in c.ids;
      assert r.records.Keys == Elems(r.ids) by {
        assert forall x :: x in r.ids <==> x in c.ids || x == ch.id;
      }
      forall i, j | 0 <= i < j < |r.ids| ensures r.ids[i] != r.ids[j] {
        assert r.ids[i] == c.ids[i];
        if j < |c.ids| {
          assert r.ids[j] == c.ids[j];
        }
      }
    }
  }

  lemma {:induction false} AddAllWellFormed(c: Collection, chunks: seq<NewChunk>)
    requires WellFormed(c)
    ensures WellFormed(AddAll(c, chunks))
    ensures AddAll(c, chunks).records.Keys == c.records.Keys + Elems(ChunkIds(chunks))
    decreases |chunks|
  {
    AddAllKeys(c, chunks);
    if chunks != [] {
      var next := AddOne(c, chunks[0]);
      assert AddAll(c, chunks) == AddAll(next, chunks[1..]);
      AddOneWellFormed(c, chunks[0]);
      AddAllWellFormed(next, chunks[1..]);
    }
  }

  /** Adding chunks adds exactly their ids to the keys. */
  lemma {:induction false} AddAllKeys(c: Collection, chunks: seq<NewChunk>)
    ensures AddAll(c, chunks).records.Keys == c.records.Keys + Elems(ChunkIds(chunks))
    decreases |chunks|
  {
    if chunks != [] {
      var next := AddOne(c, chunks[0]);
      assert AddAll(c, chunks) == AddAll(next, chunks[1..]);
      AddAllKeys(next, chunks[1..]);
      assert next.records.Keys == c.records.Keys + {chunks[0].id};
      ChunkIdsElems(chunks);
    }
  }

  lemma ChunkIdsElems(chunks: seq<NewChunk>)
    requires chunks != []
    ensures Elems(ChunkIds(chunks)) == {chunks[0].id} + Elems(ChunkIds(chunks[1..]))
  {
    assert ChunkIds(chunks) == [chunks[0].id] + ChunkIds(chunks[1..]);
  }

  /** Records whose ids are not among the added chunks' ids stay as they were. */
  lemma {:induction false} AddAllKeepsOthers(c: Collection, chunks: seq<NewChunk>, id: string)
    requires id in c.records && id !in ChunkIds(chunks)
    ensures id in AddAll(c, chunks).records && AddAll(c, chunks).records[id] == c.records[id]
    decreases |chunks|
  {
    if chunks != [] {
      assert ChunkIds(chunks) == [chunks[0].id] + ChunkIds(chunks[1..]);
      AddAllKeepsOthers(AddOne(c, chunks[0]), chunks[1..], id);
    }
  }

  /** With distinct ids, every added chunk is stored under its id. */
  lemma {:induction false} AddAllStores(c: Collection, chunks: seq<NewChunk>, i: nat)
    requires Distinct(ChunkIds(chunks)) && i < |chunks|
    ensures chunks[i].id in AddAll(c, chunks).records
    ensures AddAll(c, chunks).records[chunks[i].id] == RecordOf(chunks[i])
    decreases |chunks|
  {
    var rest := chunks[1..];
    assert ChunkIds(chunks) == [chunks[0].id] + ChunkIds(rest);
    assert Distinct(ChunkIds(rest)) by {
      forall a, b | 0 <= a < b < |rest| ensures ChunkIds(rest)[a] != ChunkIds(rest)[b] {
        assert ChunkIds(chunks)[a + 1] != ChunkIds(chunks)[b + 1];
      }
    }
    if i == 0 {
      assert chunks[0].id !in ChunkIds(rest) by {
        forall a | 0 <= a < |rest| ensures ChunkIds(rest)[a] != chunks[0].id {
          assert ChunkIds(chunks)[0] != ChunkIds(chunks)[a + 1];
        }
      }
      AddAllKeepsOthers(AddOne(c, chunks[0]), rest, chunks[0].id);
    } else {
      AddAllStores(AddOne(c, chunks[0]), rest, i - 1);
    }
  }

  /**
   * Adding chunks with distinct ids stores each chunk under its id, leaves
   * every other record as it was and keeps the collection well formed
   * (vector_store.py:33-43).
   */
  lemma AddedChunksStored(c: Collection, chunks: seq<NewChunk>)
    requires WellFormed(c)
    requires Distinct(ChunkIds(chunks))
    ensures WellFormed(AddAll(c, chunks))
    ensures AddAll(c, chunks).records.Keys == c.records.Keys + Elems(ChunkIds(chunks))
    ensures forall i :: 0 <= i < |chunks| ==> AddAll(c, chunks).records[chunks[i].id] == RecordOf(chunks[i])
    ensures forall id :: id in c.records && id !in ChunkIds(chunks) ==> AddAll(c, chunks).records[id] == c.records[id]
  {
    AddAllWellFormed(c, chunks);
    forall i | 0 <= i < |chunks| ensures AddAll(c, chunks).records[chunks[i].id] == RecordOf(chunks[i]) {
      AddAllStores(c, chunks, i);
    }
    forall id | id in c.records && id !in ChunkIds(chunks) ensures AddAll(c, chunks).records[id] == c.records[id] {
      AddAllKeepsOthers(c, chunks, id);
    }
  }

  /** A search hit as the service returns it: the similarity score is one minus the distance. */
  function ToRetrieved(h: Hit): RetrievedChunk {
    RetrievedChunk(h.id, h.text, h.metadata, Some(1.0 - h.distance))
  }

  /** The records a search returns for backend hits `hits`, in the same order. */
  function Results(hits: seq<Hit>): (r: seq<RetrievedChunk>)
    ensures |r| == |hits| && forall i :: 0 <= i < |hits| ==> r[i] == ToRetrieved(hits[i])
  {
    seq(|hits|, i requires 0 <= i < |hits| => ToRetrieved(hits[i]))
  }

  /** The `n_results` sent to the backend: `top_k`, or the configured default when absent. */
  function ResultCount(topK: Option<nat>): (n: nat)
    ensures topK.None? ==> n == Config.TopK
    ensures topK.Some? ==> n == topK.value
  {
    if topK.None? then Config.TopK else topK.value
  }

  /** Whether a record's metadata names document `documentId`; missing or empty metadata never does. */
  predicate MetaMatches(m: Option<Metadata>, documentId: string) {
    m.Some? && "document_id" in m.value && m.value["document_id"] == Str(documentId)
  }

  /** The ids, in collection order, whose records belong to `documentId`. */
  function Matching(ids: seq<string>, records: map<string, VectorRecord>, documentId: string): seq<string>
    decreases |ids|
  {
    if ids == [] then []
    else
      var last := ids[|ids| - 1];
      Matching(ids[..|ids| - 1], records, documentId) +
        (if last in records && MetaMatches(records[last].metadata, documentId) then [last] else [])
  }

  /** `Matching` selects exactly the matching ids, each once. */
  lemma {:induction false} MatchingExact(ids: seq<string>, records: map<string, VectorRecord>, documentId: string)
    ensures forall x :: x in Matching(ids, records, documentId) <==>
      x in ids && x in records && MetaMatches(records[x].metadata, documentId)
    ensures Distinct(ids) ==> Distinct(Matching(ids, records, documentId))
    decreases |ids|
  {
    if ids != [] {
      var init := ids[..|ids| - 1];
      var last := ids[|ids| - 1];
      MatchingExact(init, records, documentId);
      assert ids == init + [last];
      var m := Matching(init, records, documentId);
      if Distinct(ids) && last in records && MetaMatches(records[last].metadata, documentId) {
        assert Distinct(init) by {
          forall i, j | 0 <= i < j < |init| ensures init[i] != init[j] {
            assert init[i] == ids[i] && init[j] == ids[j];
          }
        }
        assert last !in init by {
          forall i | 0 <= i < |init| ensures init[i] != last {
            assert init[i] == ids[i];
          }
        }
        assert last !in m;
        forall i, j | 0 <= i < j < |m + [last]| ensures (m + [last])[i] != (m + [last])[j] {
          assert (m + [last])[i] == m[i];
          if j < |m| {
            assert (m + [last])[j] == m[j];
          } else {
            assert m[i] in m;
          }
        }
      }
    }
  }

  /** The ids that a deletion for `documentId` removes from a well-formed collection. */
  ghost function MatchingSet(c: Collection, documentId: string): set<string> {
    set id | id in c.records && MetaMatches(c.records[id].metadata, documentId)
  }

  /** The count `delete_document` returns is the number of matching records (vector_store.py:95-102). */
  lemma DeleteCount(c: Collection, documentId: string)
    requires WellFormed(c)
    ensures |Matching(c.ids, c.records, documentId)| == |MatchingSet(c, documentId)|
    ensures Elems(Matching(c.ids, c.records, documentId)) == MatchingSet(c, documentId)
  {
    var m := Matching(c.ids, c.records, documentId);
    MatchingExact(c.ids, c.records, documentId);
    ElemsCard(m);
    assert Elems(m) == MatchingSet(c, documentId);
  }

  /** The collection after deleting the records of `documentId`. */
  function Deleted(c: Collection, documentId: string): Collection {
    var m := Matching(c.ids, c.records, documentId);
    Collection(c.records - Elems(m), Without(c.ids, Elems(m)))
  }

  /** The backend calls a deletion makes: one delete call, or none when nothing matches. */
  function DeleteCalls(c: Collection, documentId: string): seq<BackendCall> {
    var m := Matching(c.ids, c.records, documentId);
    if m == [] then [] else [DeleteCall(m)]
  }

  lemma NothingToDelete(c: Collection, documentId: string)
    requires Matching(c.ids, c.records, documentId) == []
    ensures Deleted(c, documentId) == c
    ensures DeleteCalls(c, documentId) == []
  {
    assert Elems<string>([]) == {};
    WithoutNothing(c.ids);
    assert c.records - {} == c.records;
  }

  /** Dropping a set of ids keeps the collection well formed. */
  lemma DropWellFormed(c: Collection, drop: set<string>)
    requires WellFormed(c)
    ensures WellFormed(Collection(c.records - drop, Without(c.ids, drop)))
  {
    WithoutKeepsOrder(c.ids, drop);
    assert (c.records - drop).Keys == Elems(Without(c.ids, drop));
  }

  class VectorStore {
    var records: map<string, VectorRecord>
    var ids: seq<string>
    /** Every mutating call made to the backend, oldest first. */
    var calls: seq<BackendCall>
    const queryBackend: QueryBackend

    function Contents(): Collection
      reads this
    {
      Collection(records, ids)
    }

    ghost predicate Valid()
      reads this
    {
      WellFormed(Contents())
    }

    constructor(queryBackend: QueryBackend)
      ensures Valid()
      ensures records == map[] && ids == [] && calls == []
      ensures this.queryBackend == queryBackend
    {
      records := map[];
      ids := [];
      calls := [];
      this.queryBackend := queryBackend;
    }

    /**
     * An empty list makes no backend call. Otherwise one add call carries
     * the ids, texts, embeddings and metadatas as parallel lists in input
     * order, and the backend stores each chunk under its id
     * (vector_store.py:23-43). `backendError` stands for an exception the
     * backend raises instead, which leaves the collection as it was and
     * propagates.
     */
    method AddChunks(chunks: seq<NewChunk>, backendError: Option<string>) returns (error: Option<string>)
      requires Valid()
      modifies this
      ensures Valid()
      ensures chunks == [] ==> error.None? && calls == old(calls) && Contents() == old(Contents())
      ensures chunks != [] && backendError.Some? ==>
        error == backendError && calls == old(calls) && Contents() == old(Contents())
      ensures chunks != [] && backendError.None? ==>
        error.None? &&
        calls == old(calls) + [AddCall(ChunkIds(chunks), ChunkTexts(chunks), ChunkEmbeddings(chunks), ChunkMetadatas(chunks))] &&
        Contents() == AddAll(old(Contents()), chunks)
    {
      if chunks == [] {
        return None;
      }
      var idList, textList, embeddingList, metadataList :=
        ChunkIds(chunks), ChunkTexts(chunks), ChunkEmbeddings(chunks), ChunkMetadatas(chunks);
      if backendError.Some? {
        return backendError;
      }
      calls := calls + [AddCall(idList, textList, embeddingList, metadataList)];
      AddAllWellFormed(Contents(), chunks);
      var c := AddAll(Contents(), chunks);
      records, ids := c.records, c.ids;
      return None;
    }

    /**
     * One result per backend hit, in backend order, with similarity score
     * `1 - distance`; `top_k` defaults to the configured value
     * (vector_store.py:45-76).
     */
    method Search(queryEmbedding: Embedding, topK: Option<nat>) returns (r: seq<RetrievedChunk>)
      ensures r == Results(queryBackend(records, queryEmbedding, ResultCount(topK)))
    {
      var hits := queryBackend(records, queryEmbedding, ResultCount(topK));
      r := [];
      if hits != [] {
        var i := 0;
        while i < |hits|
          invariant 0 <= i <= |hits|
          invariant |r| == i
          invariant forall j :: 0 <= j < i ==> r[j] == ToRetrieved(hits[j])
        {
          r := r + [ToRetrieved(hits[i])];
          i := i + 1;
        }
      }
    }

    /**
     * Removes exactly the records whose metadata names `documentId` and
     * returns their number; an empty collection or no match issues no
     * delete call. `backendError` stands for an exception raised by the
     * backend, which leaves the collection as it was and propagates
     * (vector_store.py:78-107).
     */
    method DeleteDocument(documentId: string, backendError: Option<string>) returns (r: Result<nat, string>)
      requires Valid()
      modifies this
      ensures Valid()
      ensures backendError.Some? ==>
        r == Err(backendError.value) && Contents() == old(Contents()) && calls == old(calls)
      ensures backendError.None? ==>
        r == Ok(|Matching(old(ids), old(records), documentId)|) &&
        Contents() == Deleted(old(Contents()), documentId) &&
        calls == old(calls) + DeleteCalls(old(Contents()), documentId)
    {
      if backendError.Some? {
        return Err(backendError.value);
      }
      if ids == [] {
        NothingToDelete(Contents(), documentId);
        return Ok(0);
      }
      var all, recs := ids, records;
      var toDelete := MatchingIds(all, recs, documentId);
      if toDelete == [] {
        NothingToDelete(Contents(), documentId);
        return Ok(0);
      }
      DropWellFormed(Contents(), Elems(toDelete));
      calls := calls + [DeleteCall(toDelete)];
      records := recs - Elems(toDelete);
      ids := Without(all, Elems(toDelete));
      return Ok(|toDelete|);
    }
  }

  /** The selection loop of `delete_document`: the ids, in collection order, whose records name `documentId`. */
  method MatchingIds(all: seq<string>, recs: map<string, VectorRecord>, documentId: string) returns (toDelete: seq<string>)
    requires forall x :: x in all ==> x in recs
    ensures toDelete == Matching(all, recs, documentId)
  {
    toDelete := [];
    var i := 0;
    while i < |all|
      invariant 0 <= i <= |all|
      invariant toDelete == Matching(all[..i], recs, documentId)
    {
      assert all[..i + 1][..i] == all[..i];
      if MetaMatches(recs[all[i]].metadata, documentId) {
        toDelete := toDelete + [all[i]];
      }
      i := i + 1;
    }
    assert all[..i] == all;
  }

  /**
   * A deletion removes the matching records and nothing else: a record
   * with another document id, or with no metadata, is untouched
   * (vector_store.py:95-102).
   */
  lemma DeleteKeepsOthers(c: Collection, documentId: string)
    requires WellFormed(c)
    ensures WellFormed(Deleted(c, documentId))
    ensures forall id :: id in Deleted(c, documentId).records <==>
      id in c.records && !MetaMatches(c.records[id].metadata, documentId)
    ensures forall id :: id in Deleted(c, documentId).records ==> Deleted(c, documentId).records[id] == c.records[id]
    ensures forall id :: id in c.records && c.records[id].metadata.None? ==> id in Deleted(c, documentId).records
  {
    MatchingExact(c.ids, c.records, documentId);
    DropWellFormed(c, Elems(Matching(c.ids, c.records, documentId)));
  }
}
