/** Values exchanged between the components: chunk metadata, embeddings and retrieved chunks. */
module Records {
  import opened Wrappers

  /** A value in a chunk's metadata dictionary (the service stores strings and integers). */
  datatype MetaValue = Str(s: string) | Int(i: int)

  /** A chunk's metadata dictionary: `document_id`, `document_title`, `page`, `chunk_index`. */
  type Metadata = map<string, MetaValue>

  /** An embedding vector; its components are only stored and passed on. */
  type Embedding = seq<real>

  /**
   * A chunk returned by a similarity search. `metadata` is `None` for a
   * record stored without metadata; `similarityScore` is `None` when the key
   * is absent from the dictionary.
   */
  datatype RetrievedChunk = RetrievedChunk(
    id: string,
    text: string,
    metadata: Option<Metadata>,
    similarityScore: Option<real>)

  /** The metadata the chunker attaches to every chunk. */
  function ChunkMetadata(documentId: string, title: string, page: int, chunkIndex: nat): (m: Metadata)
    ensures m.Keys == {"document_id", "document_title", "page", "chunk_index"}
  {
    map["document_id" := Str(documentId), "document_title" := Str(title),
        "page" := Int(page), "chunk_index" := Int(chunkIndex)]
  }
}
