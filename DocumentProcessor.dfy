/**
 * The document processor: token-window chunking of page text, numbering of
 * chunks across the pages of a document, and the title heuristic.
 *
 * The tokenizer is abstract: a pair of functions from text to tokens and
 * back, with no property assumed of either.
 */
module DocumentProcessor {
  import opened Wrappers
  import opened Text
  import opened Records
  import Config

  type Token = int

  datatype Tokenizer = Tokenizer(encode: string -> seq<Token>, decode: seq<Token> -> string)

  /** One extracted page: its 1-based number and its text. */
  datatype Page = Page(pageNumber: int, text: string)

  /** What text extraction produces and the chunker consumes. */
  datatype DocumentData = DocumentData(title: string, pages: seq<Page>)

  /** A chunk ready for embedding: its document-wide index, its text and its metadata. */
  datatype DocChunk = DocChunk(chunkIndex: nat, text: string, metadata: Metadata)

  // ---------------------------------------------------------------------
  // Token windows

  function Min(a: int, b: int): int {
    if a <= b then a else b
  }

  /**
   * How many windows of stride `step` start below `n` (the number of times
   * the chunking loop runs): the ceiling of n / step.
   */
  function WindowCount(n: nat, step: nat): nat
    requires step > 0
  {
    if n == 0 then 0 else 1 + WindowCount(if n <= step then 0 else n - step, step)
  }

  /** First token of window `k`. */
  function WindowStart(k: nat, step: nat, n: nat): nat {
    Min(k * step, n)
  }

  /** One past the last token of window `k` (the slice end is clamped to `n`, as Python slicing does). */
  function WindowEnd(k: nat, size: nat, step: nat, n: nat): nat {
    Min(k * step + size, n)
  }

  function Window(tokens: seq<Token>, k: nat, size: nat, step: nat): seq<Token> {
    var n := |tokens|;
    tokens[WindowStart(k, step, n)..WindowEnd(k, size, step, n)]
  }

  /**
   * The chunk texts `chunk_text` returns: the text itself when it has at most
   * `size` tokens, else the decoded windows of `size` tokens whose starts are
   * `size - overlap` apart.
   */
  function Chunks(tok: Tokenizer, text: string, size: nat, overlap: int): seq<string>
    requires 0 < size && overlap < size
  {
    var tokens := tok.encode(text);
    if |tokens| <= size then [text]
    else
      var step := size - overlap;
      seq(WindowCount(|tokens|, step), k requires 0 <= k => tok.decode(Window(tokens, k, size, step)))
  }

  /** Window `k` exists exactly when its start lies inside the text. */
  lemma {:induction false} WindowExists(n: nat, step: nat, k: nat)
    requires step > 0
    ensures k < WindowCount(n, step) <==> k * step < n
  {
    if k > 0 && n > 0 {
      var m := if n <= step then 0 else n - step;
      WindowExists(m, step, k - 1);
      assert (k - 1) * step == k * step - step;
      assert (k - 1) * step >= 0;
    }
  }

  lemma WindowCountExact(n: nat, step: nat, k: nat)
    requires step > 0
    requires k * step >= n
    requires k == 0 || (k - 1) * step < n
    ensures WindowCount(n, step) == k
  {
    WindowExists(n, step, k);
    if k > 0 {
      WindowExists(n, step, k - 1);
    }
  }

  /** `chunk_text(text, size, overlap)`; the loop only advances when `overlap < size`. */
  method ChunkText(tok: Tokenizer, text: string, size: nat, overlap: int) returns (chunks: seq<string>)
    requires 0 < size && overlap < size
    ensures chunks == Chunks(tok, text, size, overlap)
  {
    var tokens := tok.encode(text);
    if |tokens| <= size {
      return [text];
    }
    var step := size - overlap;
    chunks := [];
    var start := 0;
    ghost var k: nat := 0;
    while start < |tokens|
      invariant start == k * step
      invariant |chunks| == k
      invariant forall j :: 0 <= j < k ==> chunks[j] == tok.decode(Window(tokens, j, size, step))
      invariant k == 0 || (k - 1) * step < |tokens|
      decreases |tokens| - start
    {
      var end := start + size;
      var chunkTokens := tokens[start..Min(end, |tokens|)];
      assert chunkTokens == Window(tokens, k, size, step);
      chunks := chunks + [tok.decode(chunkTokens)];
      start := end - overlap;
      k := k + 1;
      assert start == k * step;
    }
    WindowCountExact(|tokens|, step, k);
  }

  /** Every page, however short, yields at least one chunk; a text longer than `size` tokens yields at least two. */
  lemma ChunkCount(tok: Tokenizer, text: string, size: nat, overlap: int)
    requires 0 < size && 0 <= overlap < size
    ensures var n := |tok.encode(text)|;
      && (n <= size ==> Chunks(tok, text, size, overlap) == [text])
      && (n > size ==> |Chunks(tok, text, size, overlap)| == WindowCount(n, size - overlap) >= 2)
  {
    var n := |tok.encode(text)|;
    var step := size - overlap;
    if n > size {
      WindowExists(n, step, 1);
    }
  }

  /** Windows start exactly `size - overlap` tokens apart, and each one starts inside the text. */
  lemma WindowStarts(n: nat, size: nat, overlap: int, k: nat)
    requires 0 < size && overlap < size
    requires k < WindowCount(n, size - overlap)
    ensures var step := size - overlap;
      && WindowStart(k, step, n) == k * step < n
      && WindowStart(k, step, n) < WindowEnd(k, size, step, n)
  {
    WindowExists(n, size - overlap, k);
  }

  /**
   * A full window shares its last `overlap` tokens with the first `overlap`
   * tokens of the next window.
   */
  lemma ConsecutiveWindowsOverlap(tokens: seq<Token>, size: nat, overlap: nat, k: nat)
    requires overlap < size
    requires (k + 1) * (size - overlap) < |tokens|
    requires k * (size - overlap) + size <= |tokens|
    ensures var step := size - overlap;
      Window(tokens, k, size, step)[step..] == Window(tokens, k + 1, size, step)[..overlap]
  {
    var step := size - overlap;
    var n := |tokens|;
    assert (k + 1) * step == k * step + step;
    assert WindowStart(k, step, n) == k * step;
    assert WindowEnd(k, size, step, n) == k * step + size;
    assert WindowStart(k + 1, step, n) == k * step + step;
    assert Window(tokens, k, size, step) == tokens[k * step..k * step + size];
    assert Window(tokens, k, size, step)[step..] == tokens[k * step + step..k * step + size];
  }

  /** With no negative overlap, every token lies in some window: nothing is dropped. */
  lemma WindowsCoverText(n: nat, size: nat, overlap: nat, i: nat)
    requires overlap < size && size < n && i < n
    ensures var step := size - overlap;
      var k := i / step;
      k < WindowCount(n, step) && WindowStart(k, step, n) <= i < WindowEnd(k, size, step, n)
  {
    var step := size - overlap;
    var k := i / step;
    assert i == k * step + i % step;
    assert k * step <= i < k * step + step;
    WindowExists(n, step, k);
  }

  /**
   * The trailing window can lie wholly inside the one before it: 170 tokens
   * with size 100 and overlap 20 give the windows [0,100), [80,170), [160,170).
   */
  lemma TrailingWindowInsidePrevious()
    ensures WindowCount(170, 80) == 3
    ensures WindowStart(0, 80, 170) == 0 && WindowEnd(0, 100, 80, 170) == 100
    ensures WindowStart(1, 80, 170) == 80 && WindowEnd(1, 100, 80, 170) == 170
    ensures WindowStart(2, 80, 170) == 160 && WindowEnd(2, 100, 80, 170) == 170
  {
    assert WindowCount(10, 80) == 1;
    assert WindowCount(90, 80) == 2;
  }

  // ---------------------------------------------------------------------
  // Numbering chunks across pages

  /** The chunks of one page, numbered from `base`. */
  function PageChunks(page: Page, texts: seq<string>, documentId: string, title: string, base: nat): (r: seq<DocChunk>)
    ensures |r| == |texts|
  {
    seq(|texts|, j requires 0 <= j < |texts| =>
      DocChunk(base + j, texts[j], ChunkMetadata(documentId, title, page.pageNumber, base + j)))
  }

  /** The chunks of one page under the configured chunk size and overlap. */
  function PageTexts(tok: Tokenizer, page: Page): seq<string>
  {
    Chunks(tok, page.text, Config.ChunkSize, Config.ChunkOverlap)
  }

  /** What `create_chunks` returns: every page's chunks in page order, numbered on across pages. */
  function DocumentChunks(tok: Tokenizer, pages: seq<Page>, title: string, documentId: int): seq<DocChunk>
    decreases |pages|
  {
    if pages == [] then []
    else
      var prev := DocumentChunks(tok, pages[..|pages| - 1], title, documentId);
      var last := pages[|pages| - 1];
      prev + PageChunks(last, PageTexts(tok, last), IntToString(documentId), title, |prev|)
  }

  /** Number of chunks of the first `p` pages. */
  function TotalChunks(tok: Tokenizer, pages: seq<Page>): nat
    decreases |pages|
  {
    if pages == [] then 0
    else TotalChunks(tok, pages[..|pages| - 1]) + |PageTexts(tok, pages[|pages| - 1])|
  }

  /** `create_chunks(document_data, document_id)`. */
  method CreateChunks(tok: Tokenizer, data: DocumentData, documentId: int) returns (chunks: seq<DocChunk>)
    ensures chunks == DocumentChunks(tok, data.pages, data.title, documentId)
  {
    var pages := data.pages;
    chunks := [];
    var p := 0;
    while p < |pages|
      invariant 0 <= p <= |pages|
      invariant chunks == DocumentChunks(tok, pages[..p], data.title, documentId)
    {
      var page := pages[p];
      var pageChunks := ChunkText(tok, page.text, Config.ChunkSize, Config.ChunkOverlap);
      chunks := AppendPageChunks(chunks, page, pageChunks, IntToString(documentId), data.title);
      assert pages[..p + 1][..p] == pages[..p];
      assert chunks == DocumentChunks(tok, pages[..p + 1], data.title, documentId) by {
        assert pages[..p + 1][p] == page;
      }
      p := p + 1;
    }
    assert pages[..p] == pages;
  }

  /** The inner loop of `create_chunks`: one page's chunks, numbered on from the running index. */
  method AppendPageChunks(chunks: seq<DocChunk>, page: Page, texts: seq<string>, documentId: string, title: string)
    returns (r: seq<DocChunk>)
    ensures r == chunks + PageChunks(page, texts, documentId, title, |chunks|)
  {
    r := chunks;
    var chunkIndex := |chunks|;
    var j := 0;
    while j < |texts|
      invariant 0 <= j <= |texts|
      invariant r == chunks + PageChunks(page, texts, documentId, title, |chunks|)[..j]
      invariant chunkIndex == |chunks| + j
    {
      var chunk := DocChunk(chunkIndex, texts[j], ChunkMetadata(documentId, title, page.pageNumber, chunkIndex));
      r := r + [chunk];
      chunkIndex := chunkIndex + 1;
      j := j + 1;
    }
  }

  /** The chunks of the first pages are a prefix of the chunks of the whole document. */
  lemma {:induction false} DocumentChunksPrefix(tok: Tokenizer, pages: seq<Page>, title: string, documentId: int, p: nat)
    requires p <= |pages|
    ensures DocumentChunks(tok, pages[..p], title, documentId) <= DocumentChunks(tok, pages, title, documentId)
    decreases |pages|
  {
    if p < |pages| {
      var init := pages[..|pages| - 1];
      assert pages[..p] == init[..p];
      DocumentChunksPrefix(tok, init, title, documentId, p);
    } else {
      assert pages[..p] == pages;
    }
  }

  /**
   * `create_chunks` numbers its chunks 0..N-1 in output order, with N the sum
   * of the per-page chunk counts, and every chunk's metadata repeats its index,
   * the document id as a string and the document title.
   */
  lemma {:induction false} ChunkIndicesContiguous(tok: Tokenizer, pages: seq<Page>, title: string, documentId: int)
    ensures var cs := DocumentChunks(tok, pages, title, documentId);
      && |cs| == TotalChunks(tok, pages)
      && forall i :: 0 <= i < |cs| ==>
        && cs[i].chunkIndex == i
        && cs[i].metadata.Keys == {"document_id", "document_title", "page", "chunk_index"}
        && cs[i].metadata["chunk_index"] == Int(i)
        && cs[i].metadata["document_id"] == Str(IntToString(documentId))
        && cs[i].metadata["document_title"] == Str(title)
    decreases |pages|
  {
    if pages != [] {
      var init := pages[..|pages| - 1];
      var last := pages[|pages| - 1];
      ChunkIndicesContiguous(tok, init, title, documentId);
      var prev := DocumentChunks(tok, init, title, documentId);
      var pc := PageChunks(last, PageTexts(tok, last), IntToString(documentId), title, |prev|);
      var cs := prev + pc;
      forall i | |prev| <= i < |cs|
        ensures cs[i].chunkIndex == i
        ensures cs[i].metadata == ChunkMetadata(IntToString(documentId), title, last.pageNumber, i)
      {
        assert cs[i] == pc[i - |prev|];
      }
    }
  }

  /** Every page contributes at least one chunk, even a page with empty text. */
  lemma {:induction false} EveryPageContributes(tok: Tokenizer, pages: seq<Page>)
    ensures TotalChunks(tok, pages) >= |pages|
    decreases |pages|
  {
    if pages != [] {
      EveryPageContributes(tok, pages[..|pages| - 1]);
      ChunkCount(tok, pages[|pages| - 1].text, Config.ChunkSize, Config.ChunkOverlap);
    }
  }

  /**
   * The chunks of page `p` are contiguous, start right after those of the
   * pages before it, are that page's chunk texts in order and carry its page
   * number.
   */
  lemma PageChunksInPlace(tok: Tokenizer, pages: seq<Page>, title: string, documentId: int, p: nat, j: nat)
    requires p < |pages| && j < |PageTexts(tok, pages[p])|
    ensures var cs := DocumentChunks(tok, pages, title, documentId);
      var at := TotalChunks(tok, pages[..p]) + j;
      && at < |cs|
      && cs[at].text == PageTexts(tok, pages[p])[j]
      && "page" in cs[at].metadata
      && cs[at].metadata["page"] == Int(pages[p].pageNumber)
  {
    var upto := pages[..p + 1];
    assert upto[..|upto| - 1] == pages[..p];
    assert upto[|upto| - 1] == pages[p];
    var prev := DocumentChunks(tok, pages[..p], title, documentId);
    var pc := PageChunks(pages[p], PageTexts(tok, pages[p]), IntToString(documentId), title, |prev|);
    assert DocumentChunks(tok, upto, title, documentId) == prev + pc;
    DocumentChunksLength(tok, pages[..p], title, documentId);
    DocumentChunksPrefix(tok, pages, title, documentId, p + 1);
    assert (prev + pc)[|prev| + j] == pc[j];
  }

  /** There are as many chunks as the pages' chunk counts add up to. */
  lemma {:induction false} DocumentChunksLength(tok: Tokenizer, pages: seq<Page>, title: string, documentId: int)
    ensures |DocumentChunks(tok, pages, title, documentId)| == TotalChunks(tok, pages)
    decreases |pages|
  {
    if pages != [] {
      DocumentChunksLength(tok, pages[..|pages| - 1], title, documentId);
    }
  }
}
