# voice-rag core, modelled in Dafny

This project models the core of the voice-rag retrieval-augmented question
answering service. The service has four flows:

- **Ingesting a document.** It validates the file, skips content it has
  already ingested (by content hash) and extracts the pages. It then picks a
  title, cuts the pages into overlapping token windows, commits a document
  row, embeds the chunks, commits chunk rows and adds the chunks to a vector
  store under `doc_{id}_chunk_{index}`.
- **Answering a query.** It embeds the stripped query through a TTL-bounded
  cache, searches the vector store and keeps the chunks whose similarity
  reaches the threshold. A language model then answers over numbered
  context entries, and the `[n]` markers in its reply become de-duplicated
  citations.
- **Deleting a document.** The vectors go first, with their errors
  swallowed; the chunk rows and the document row follow in one transaction.
- **The HTTP layer.** It validates uploads, maps service errors to status
  codes and derives the file type shown in the listing.

Modules, in dependency order:

| module | models |
|---|---|
| `Wrappers`, `Lists`, `Text`, `Paths` | `Option`/`Result`; list helpers; Python's `str.strip`, `split`, `join`, `lower`, `str(int)`; `pathlib` name (empty and `.` components dropped), suffix and stem |
| `Config`, `Records` | the configured constants; metadata, embeddings and retrieved chunks |
| `DocumentProcessor`, `TitleExtraction` | `chunk_text`, `create_chunks`, `extract_title_from_content` |
| `LlmService` | marker scanning, `_extract_citations`, context numbering, `generate_answer` |
| `Cache` | `EmbeddingCache`: a class over an insertion-ordered dictionary, with pure specification functions |
| `Embeddings` | `EmbeddingService`: cache-through single embeddings and batch embeddings, with a request log |
| `VectorStore` | the collection adapter: add, search result shaping, scan-filter-delete, with a backend call log |
| `Database` | the `documents` and `chunks` tables, one committed transaction per method |
| `Ingestion` | `IngestionService.ingest_document`: the checks before any write (`Admit`), then the writes (`Commit`) |
| `Deletion` | `DeletionService.delete_document` |
| `Api` | the decision logic of `/query`, `/documents/upload`, `/documents/{id}` (delete) and the listing's `file_type` |

Stateful source objects are classes whose methods state their entire new
state. Each such method is tied to a specification function: `Lookup`,
`Put`, `Outcome`, `Results`, `Deleted`, `Admission`, `Reply`, `Committed`
or `Respond`. The properties the source promises are lemmas about those
functions.

## Model

| member | source | states |
|---|---|---|
| Records.ChunkMetadata | document_processor.py:217-222 | chunk metadata has exactly the keys `document_id`, `document_title`, `page`, `chunk_index` |
| Text.StripIdempotent | document_processor.py:108-116 | stripping twice is stripping once, so a stripped line re-stripped at line 130 is unchanged |
| Text.StripNoOuterSpace | api.py:190 | `str.strip()` leaves no whitespace (Python's `isspace` set) at either end |
| Text.NatToStringInjective | ingestion_service.py:154 | `str(n)` is injective on naturals (its parse gives `n` back) |
| Paths.SuffixShape | api.py:276 | `Path.stem + Path.suffix == Path.name`; a suffix is empty or `.` plus at least one character and no further dot |
| Paths.NameDropsDotParts | api.py:276 | as in `pathlib`, a trailing `.` component does not change a path's name, and `.` alone has empty name, stem and suffix |
| DocumentProcessor.ChunkText | document_processor.py:145-185 | the loop returns exactly `Chunks`: `[text]` when the tokens fit, otherwise the decoded windows `[k*(size-overlap), k*(size-overlap)+size)` for every start below n; requires `overlap < size`, without which the loop does not advance |
| DocumentProcessor.ChunkCount | document_processor.py:170-185 | n ≤ size gives exactly `[text]`, the original string; n > size gives ⌈n/(size-overlap)⌉ chunks, at least 2 |
| DocumentProcessor.WindowExists | document_processor.py:176-183 | window k exists iff its start `k*step` is below n, so the count is the ceiling of n/step |
| DocumentProcessor.WindowStarts | document_processor.py:176-183 | windows start exactly `size - overlap` tokens apart, each inside the text and non-empty |
| DocumentProcessor.ConsecutiveWindowsOverlap | document_processor.py:176-183 | a full window's last `overlap` tokens are the next window's first `overlap` tokens |
| DocumentProcessor.WindowsCoverText | document_processor.py:176-183 | every token lies in some window: nothing is dropped |
| DocumentProcessor.TrailingWindowInsidePrevious | document_processor.py:176-183 | 170 tokens with size 100 and overlap 20 give [0,100), [80,170), [160,170), the last one inside the one before |
| DocumentProcessor.CreateChunks | document_processor.py:187-227 | the nested loops return exactly `DocumentChunks`: each page's chunk texts in page order, numbered on across pages |
| DocumentProcessor.AppendPageChunks | document_processor.py:213-225 | the inner loop appends one page's chunks numbered from the running index, with that page's metadata |
| DocumentProcessor.ChunkIndicesContiguous | document_processor.py:203-227 | the chunk indices are exactly 0..N-1 in output order, N is the sum of the per-page counts, and metadata repeats the index, `str(document_id)` and the title |
| DocumentProcessor.PageChunksInPlace | document_processor.py:206-222 | chunk j of page p sits at position (chunks of earlier pages) + j, holds that page's j-th chunk text and carries its page number |
| DocumentProcessor.EveryPageContributes | document_processor.py:170-171 | every page, an empty one included, contributes at least one chunk |
| DocumentProcessor.DocumentChunksPrefix | document_processor.py:206-225 | the chunks of the first pages are a prefix of the document's chunks (pages only append) |
| DocumentProcessor.DocumentChunksLength | document_processor.py:203-227 | the number of chunks is the sum of the per-page chunk counts |
| TitleExtraction.TitleShape | document_processor.py:103-143 | no pages or a blank first page give `None`; a title is a stripped line among the first five that passes the length, metadata-word and sentence/position tests, or the stripped first '.'-segment of 10..100 characters |
| TitleExtraction.ScanLinesShape | document_processor.py:115-134 | a title found by the line loop is the stripped line k < 5 with 5 ≤ length < 150, no metadata word, ending in `.!?` or shorter than 100 at list position < 2 |
| TitleExtraction.ScanSkips | document_processor.py:117-122 | a line shorter than 5 characters after stripping is skipped |
| TitleExtraction.ScanAborts | document_processor.py:133 | a short candidate whose stripped form is not itself a line makes `lines.index` raise |
| TitleExtraction.AbortedGivesNoTitle | document_processor.py:142-143 | that ValueError makes the whole heuristic return `None` |
| TitleExtraction.IndentedSecondLineGivesNoTitle | document_processor.py:115-143 | an indented short second line after a skipped first line gives `None`, and the first-sentence fallback is never tried |
| LlmService.DigitRun | llm_service.py:116-117 | the digit run at the start of a string consists of digits and is maximal |
| LlmService.LabelIsMarker | llm_service.py:49-122 | the label `[n]` of a context entry, scanned as an answer, is exactly the one marker n |
| LlmService.NoBracketNoMarkers | llm_service.py:116-117 | a text without `[` holds no marker |
| LlmService.ExtractCitations | llm_service.py:98-137 | the loop with its seen-id set returns exactly `Cite(Markers(answer), chunks)` |
| LlmService.CitationsAreOfChunks | llm_service.py:121-135 | every citation is `CitationOf(chunks[j])` for some input chunk j: id, text and score copied; "Unknown", "?" and 0.0 as defaults |
| LlmService.CitationIdsDistinct | llm_service.py:120-135 | no two citations share an id |
| LlmService.CitedIffResolved | llm_service.py:122-135 | an id is cited iff some in-range marker 1 ≤ n ≤ len(chunks) resolves to it; `[0]` and markers past the end are ignored |
| LlmService.MarkerInRangeIsCited | llm_service.py:122-127 | an in-range marker's chunk id is always among the cited ids |
| LlmService.CitationOrder | llm_service.py:127-135 | citations are ordered by the first in-range marker resolving to each id (de-duplication by id, not by number) |
| LlmService.CitationCount | llm_service.py:116-137 | there are never more citations than chunks |
| LlmService.NoMarkersNoCitations | llm_service.py:116-117 | an answer without `[` gives no citation |
| LlmService.BuildContext | llm_service.py:40-52 | the loop builds the context from the entries numbered from 1, joined by newlines |
| LlmService.ContextLabelCitesItsChunk | llm_service.py:41-124 | context entry i starts with the label `[i]`, and `[i]` cites exactly `chunks[i-1]`, the chunk that entry shows |
| LlmService.EntryStartsWithLabel | llm_service.py:48-50 | a context entry starts with its label |
| LlmService.CiteOne | llm_service.py:122-135 | a single in-range marker i cites `chunks[i-1]` alone |
| LlmService.GenerateAnswer | llm_service.py:18-96 | returns `AnswerOf`: the fixed not-found answer for no chunks; the stripped reply and its citations; the error text and no citations when the model raises; an escaping exception for a chunk without metadata |
| LlmService.NoChunksNoModel | llm_service.py:33-37 | with no chunks the answer is the fixed not-found answer whatever the model |
| LlmService.ModelFailureNoCitations | llm_service.py:92-96 | a model exception gives "Error generating answer: ..." and no citations |
| LlmService.AnswerCitesRetrievedChunks | llm_service.py:82-135 | an answer's citations are citations of retrieved chunks, at most one per chunk |
| Cache.SizeIsOrderLength | cache.py:75-77 | the size is the number of keys in insertion order |
| Cache.GetReturnsFresh | cache.py:36-48 | an entry is returned iff present and `now - timestamp <= ttl` (expiry is the strict `>`), and it is the stored embedding |
| Cache.GetExpiry | cache.py:44-46 | an expired hit deletes the entry, so the size drops by one; otherwise `get` changes nothing; the survivors keep their order |
| Cache.SetThenGet | cache.py:36-69 | after `set(q, e)`, a `get(q)` within the TTL returns `e` and changes nothing |
| Cache.SetKeepsBound | cache.py:61-64 | `set` raises (first key of an empty dict) iff `max_size <= 0` and the cache is empty; otherwise the size stays within `max_size` |
| Cache.SetChangesOnlyItsKey | cache.py:61-69 | `set` writes its key and changes at most one other key: the earliest inserted, evicted only when full and the key is new; an existing key keeps its position, a new key goes last |
| Cache.PutWellFormed | cache.py:61-69 | `set` keeps the insertion order a listing of the keys without repeats |
| Cache.ClearThenGet | cache.py:71-77 | after `clear()` the size is 0 and every `get` returns `None` |
| Cache.Cleared | cache.py:71-73 | the cleared cache is well formed |
| Cache.EmbeddingCache.constructor | cache.py:10-20 | a new cache is empty with the given bound and TTL |
| Cache.EmbeddingCache.Get | cache.py:26-48 | returns `Lookup` of the old contents; the new contents are `AfterLookup` (only an expired entry goes) |
| Cache.EmbeddingCache.Set | cache.py:50-69 | raises iff `Put` has no result, leaving the contents as they were; otherwise the contents become `Put` of the old contents |
| Cache.EmbeddingCache.Clear | cache.py:71-73 | the contents become empty |
| Cache.EmbeddingCache.Size | cache.py:75-77 | the size is the number of keys in insertion order |
| Embeddings.EmbeddingService.constructor | embeddings.py:11-22 | a cache with the default bound and TTL iff `use_cache`, none otherwise; no request yet |
| Embeddings.EmbeddingService.GenerateEmbedding | embeddings.py:24-51 | returns `Outcome`: a live cached vector with no provider request and no cache change; otherwise exactly one request, and a successful vector is stored via `Put`; without a cache, every call is a request |
| Embeddings.EmbeddingService.GenerateEmbeddingsBatch | embeddings.py:53-70 | `[]` gives `[]` with no request; otherwise one request with all texts, whose answer is returned; the cache is untouched |
| Embeddings.RepeatedQueryHits | embeddings.py:35-49 | a miss that stores its vector makes a second request within the TTL a hit returning that vector |
| VectorStore.AddOneWellFormed | vector_store.py:38-43 | adding one chunk keeps the id list a listing of the record keys without repeats |
| VectorStore.AddAllWellFormed | vector_store.py:38-43 | adding chunks keeps the collection well formed and adds exactly their ids to the keys |
| VectorStore.AddAllKeys | vector_store.py:38-43 | adding chunks adds exactly their ids to the keys |
| VectorStore.AddAllKeepsOthers | vector_store.py:38-43 | a record whose id is not added stays as it was |
| VectorStore.AddAllStores | vector_store.py:38-43 | with distinct ids, each chunk is stored under its id with its text, embedding and metadata |
| VectorStore.AddedChunksStored | vector_store.py:33-43 | with distinct ids: well formed, keys grow by the ids, each chunk stored, every other record unchanged |
| VectorStore.ResultCount | vector_store.py:56-57 | `n_results` is `top_k`, or the configured TOP_K when absent |
| VectorStore.MatchingExact | vector_store.py:95-98 | the selected ids are exactly those whose metadata has `document_id == str(d)`, each once |
| VectorStore.DeleteCount | vector_store.py:95-102 | the returned count is the number of matching records |
| VectorStore.NothingToDelete | vector_store.py:92-104 | no match leaves the collection as it is and issues no delete call |
| VectorStore.DropWellFormed | vector_store.py:101 | deleting a set of ids keeps the collection well formed |
| VectorStore.DeleteKeepsOthers | vector_store.py:95-102 | exactly the matching records go; every other record, one without metadata included, stays unchanged |
| VectorStore.VectorStore.constructor | vector_store.py:12-21 | a new store is empty and has made no call |
| VectorStore.VectorStore.AddChunks | vector_store.py:23-43 | `[]` makes no call; otherwise one add call with the parallel projections in input order and the contents become `AddAll`; a backend exception leaves the contents as they were and propagates |
| VectorStore.VectorStore.Search | vector_store.py:45-76 | returns `Results` of the backend's hits for `ResultCount(top_k)` |
| VectorStore.VectorStore.DeleteDocument | vector_store.py:78-107 | returns the number of matching records; the contents become `Deleted`, with one delete call or none when nothing matches; a backend exception changes nothing and propagates |
| VectorStore.MatchingIds | vector_store.py:95-98 | the scan loop returns `Matching`: the matching ids in collection order |
| Database.FindByHash | ingestion_service.py:75 | the first row with the hash (every earlier row has another hash), or `None` iff no row has it |
| Database.FindById | deletion_service.py:36 | the row with the id, or `None` iff no row has it |
| Database.ChunksOf | deletion_service.py:52-53 | exactly the document's chunk rows; empty iff it has none |
| Database.ChunksNotOf | deletion_service.py:64 | exactly the chunk rows of other documents |
| Database.ChunksPartition | deletion_service.py:52-64 | the document's chunk rows and the other rows together make up the table, counting repeated rows; so the reported count is the number of rows the delete removes |
| Database.ChunksKeepOrder | deletion_service.py:52-64 | both the document's chunk rows and the rows that remain keep the table's order |
| Database.DocumentsNot | deletion_service.py:67 | exactly the other document rows |
| Database.DocumentsNotKeepsOrder | deletion_service.py:67 | the remaining document rows keep the table's order |
| Database.MetadataDb.constructor | database.py:10-28 | the tables start empty |
| Database.MetadataDb.InsertDocument | database.py:14-16 | a new row under the next id, or no change when the unique file path is taken |
| Database.MetadataDb.InsertChunks | database.py:21-28 | the chunk rows are appended; documents unchanged |
| Database.MetadataDb.DeleteDocument | deletion_service.py:64-68 | the document's chunk rows and its row go, everything else stays |
| Database.DocumentsNotValid | database.py:14-16 | deleting a row keeps ids and paths unique |
| Database.DeletionRemovesOnlyDocument | deletion_service.py:64-68 | after deletion no row with the id and no chunk row of it remain; all other rows do |
| Database.FreshIdUnused | database.py:14 | the next id is not in use |
| Ingestion.TitlePrecedence | ingestion_service.py:116-129 | the title is a truthy custom title, else the original filename's stem, else a truthy extracted title, else the path's stem |
| Ingestion.VectorIdInjective | ingestion_service.py:154 | `doc_{d}_chunk_{i}` determines (d, i): distinct pairs give distinct ids |
| Ingestion.DigitRunSplit | ingestion_service.py:154 | two numerals each followed by a non-digit split a string the same way |
| Ingestion.PreparedIdsDistinct | ingestion_service.py:154 | the vector ids of numbered chunks are distinct |
| Ingestion.PreparedChunksStored | ingestion_service.py:148-177 | each chunk i is stored under `doc_{id}_chunk_{i}` with its text, embedding i and metadata whose `document_id` is `str(id)`; its chunk row carries the same index and metadata |
| Ingestion.RewrittenMetadata | ingestion_service.py:157 | the rewritten metadata names the committed document and keeps every other key |
| Ingestion.DocumentChunksNumbered | ingestion_service.py:132 | the chunks made with `document_id=0` are numbered 0..N-1 |
| Ingestion.Prepare | ingestion_service.py:152-172 | the loop builds `VectorChunks` and `ChunkRows`, or fails iff the embeddings run out (the `IndexError`) |
| Ingestion.IngestionService.constructor | ingestion_service.py:15-19 | the service holds the given stores, embedder and oracles |
| Ingestion.IngestionService.Admit | ingestion_service.py:51-132 | the checks run in source order and give exactly `Admission`: FILE_NOT_FOUND, FILE_NOT_READABLE, an existing document with the same hash, INGESTION_ERROR for an unsupported suffix, PROCESSING_ERROR, else the title and chunks |
| Ingestion.IngestionService.Commit | ingestion_service.py:134-198 | the result is `Reply`; the stores satisfy `Committed`: the document row is committed first (unless the path is taken), then the chunk rows once every chunk has an embedding, then the vectors with one add call carrying the chunks' parallel lists (none for no chunks) unless the backend raises; a later failure keeps the earlier commits |
| Ingestion.IngestionService.IngestDocument | ingestion_service.py:21-200 | the result is `Reply` of `Admission`; a rejection or a duplicate writes nothing to any store and sends no request; an admitted file changes the stores as `Committed` says |
| Ingestion.NoUnsupportedFileType | ingestion_service.py:89-198 | ingestion never reports UNSUPPORTED_FILE_TYPE: that branch raises on `str.suffix` and becomes INGESTION_ERROR |
| Ingestion.DuplicateBeforeExtensionCheck | ingestion_service.py:74-97 | a known content hash makes the file a duplicate (the existing id and title) whatever its extension |
| Deletion.DeletionService.constructor | deletion_service.py:10-12 | the service holds the two stores |
| Deletion.DeletionService.DeleteDocument | deletion_service.py:14-90 | an unknown id gives DOCUMENT_NOT_FOUND and changes nothing. Otherwise the vectors of `str(id)` go first, and their exception is swallowed. The rows then go, and the reply carries the title and chunk count read before. A metadata exception rolls the rows back and gives DELETION_ERROR with no title and count 0, while the vectors stay deleted |
| Deletion.DeletedDocumentUnknown | deletion_service.py:36-68 | after a deletion the id is unknown and has no chunk rows |
| Deletion.IngestedVectorsDeleted | ingestion_service.py:154-157 | deleting document d removes every vector ingestion stored for d |
| Deletion.RewrittenNamesOnlyItsDocument | ingestion_service.py:157 | metadata rewritten for document e never matches another document d |
| Deletion.OtherDocumentVectorsKept | deletion_service.py:56-67 | deleting d keeps every vector stored for another document, unchanged |
| Api.FilterRelevant | api.py:223-226 | keeps exactly the chunks whose score (missing counts as 0) reaches the threshold |
| Api.FilterRelevantKeepsOrder | api.py:223-226 | the filtered list is a subsequence of the retrieved list |
| Api.FilterRelevantByDistance | api.py:223-226 | filtering the search results by score keeps exactly the results of the hits whose distance is at most `1 - SIMILARITY_THRESHOLD`, in search order, since the reported score is one minus the distance |
| Api.FilteredCitations | api.py:223-238 | the answer over the filtered chunks cites only retrieved chunks at or above the threshold |
| Api.ResponseGrounded | api.py:214-253 | nothing retrieved gives the not-found answer with no citations or chunks; everything below the threshold gives the low-relevance answer with the unfiltered list; otherwise the response carries the unfiltered list, and citation ids ⊆ filtered ids ⊆ retrieved ids |
| Api.TrimLeftAllSpace | api.py:190 | an all-whitespace text strips to empty |
| Api.BlankQueryRejected | api.py:190-193 | the stripped query is empty iff the text is empty or all whitespace |
| Api.Precheck | api.py:273-327 | 400 iff the lowercased suffix is not .pdf/.txt/.md, the body is over 50 MiB, or it is empty |
| Api.UploadTitle | api.py:331-334 | the given title when truthy, else the filename's stem |
| Api.UploadStatus | api.py:350-358 | 400 iff FILE_NOT_FOUND, UNSUPPORTED_FILE_TYPE or PROCESSING_ERROR, otherwise 500 |
| Api.DeleteStatus | api.py:455-457 | 404 iff DOCUMENT_NOT_FOUND, otherwise 500 |
| Api.LStrip | api.py:404 | `lstrip(c)`: the result is a suffix of the input, every dropped character is `c`, and the result does not start with `c` |
| Api.FileTypeOfSuffix | api.py:404 | no suffix lists as "unknown"; otherwise the type is the lowercased suffix without its dot |
| Api.Endpoints.constructor | api.py:42-47 | the endpoints hold the shared services |
| Api.Endpoints.Query | api.py:178-258 | blank text is a 400 with no embedding request and no cache change; otherwise the embedder's request log and cache change as for one `generate_embedding` of the stripped text (a live hit: no request and no change; a miss: one request, and the cache gets the vector via `Put` or loses only the expired entry); an embedding or search failure is a 500; otherwise the reply is `Respond` over the top-k search results |
| Api.Endpoints.SearchAndAnswer | api.py:207-253 | the reply after embedding is `Respond` over the top-k results the store returns for the vector |
| Api.Endpoints.Upload | api.py:261-381 | a failed precheck is its 400 and writes nothing; otherwise the reply follows ingestion's `Admission` of the temporary file: a rejection maps through `UploadStatus` and a duplicate is echoed with `already_exists`, both writing nothing; an admitted file succeeds iff its commits all go through, under the next id, and the stores change as `Committed` says |
| Api.Endpoints.Delete | api.py:441-471 | a lookup fault is a 500 and an unknown id a 404, both changing nothing; for a known id the vectors become `Deleted` unless the backend raises; a write fault is a 500 with the tables unchanged; a deletion removes the document row and its chunk rows, keeps the rest, and replies with the title and the chunk count read before |

## Left out

- Hashing: the SHA-256 content hash is an oracle `hashOf` of the file bytes. The MD5 cache key is taken as injective, so a cache entry is keyed by the query text itself.
- The tokenizer is an abstract encode/decode pair with no property assumed.
- Text extraction (PyMuPDF, file reads) is an oracle that returns pages or fails; the PDF and text readers themselves are not modelled.
- The embedding provider and the chat model are oracles that return a value or an error; the prompt wording is not modelled.
- Vector backend: the nearest-neighbour ranking and cosine distances are the backend's. Scores are reals that are only compared. `add` of an existing id is modelled as an upsert.
- Errors raised by the vector backend, by the search and by the metadata session are parameters of the methods (`backendError`, `vectorError`, `searchError`, `fault`).
- Each metadata-database method is one committed transaction. Document ids come from a counter that never reuses an id, so SQLite rowid reuse after deleting the newest row is not modelled.
- HTTP plumbing is not modelled: routing, CORS, request parsing, `latency_ms`, and the temporary file's creation, fsync and unlink. The temporary path is a parameter, already absolute.
- The `OPENAI_API_KEY` checks in the service constructors, the transcription endpoints and service, `ingest.py`, and the scripts are outside the model.
- Listing: only `file_type` is modelled. The `created_at` ordering, file sizes and per-document chunk counts are not.
- Each service in the source opens its own client on the same persisted vector collection. The model passes the stores in, and they may or may not be the same object.
- Concurrency is not modelled: every flow runs alone. A concurrent check-then-insert on the hash could ingest the same content twice.
- Embeddings.EmbeddingService.GenerateEmbedding: the clock is a single reading `now`, shared by `get` and `set`; the source reads `time.time()` separately in each.
- Ingestion.IngestionService.IngestDocument: `created_at` is a parameter rather than `datetime.now()`. The absolute-path conversion of `file_path` is taken as already done.
- Ingestion.IngestionService.Commit: the source takes the batch's one-embedding-per-text as the provider's guarantee. The model makes a short batch fail as the `IndexError` does, and does not assume the guarantee.
- Text.Lower: `str.lower()` is modelled on ASCII letters only. Regex `\d` and `int()` accept ASCII digits only.
- Paths.Suffix: POSIX paths only.
- Cache.EmbeddingCache.Get: timestamps and the time-to-live are reals rather than floats and ints.
