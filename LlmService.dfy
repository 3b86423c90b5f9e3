/**
 * The answer generator: the numbered context handed to the language model,
 * and the citations read back from the `[n]` markers of its answer.
 *
 * The language model is an oracle: a function from the context and the
 * query to either the reply text or the text of the exception it raised.
 */
module LlmService {
  import opened Wrappers
  import opened Text
  import opened Records
  import opened Lists

  // ---------------------------------------------------------------------
  // Citation markers: `re.findall(r'\[(\d+)\]', text)`

  /** Length of the run of ASCII digits at the start of `s`. */
  function DigitRun(s: string): (n: nat)
    ensures n <= |s| && AllDigits(s[..n])
    ensures n < |s| ==> !IsDigit(s[n])
  {
    if s != [] && IsDigit(s[0]) then
      var n := 1 + DigitRun(s[1..]);
      assert s[..n] == [s[0]] + s[1..][..n - 1];
      n
    else 0
  }

  /** `s` starts with a marker: '[', one or more digits, ']'. */
  predicate MarkerAt(s: string) {
    s != [] && s[0] == '[' &&
    var d := DigitRun(s[1..]);
    d > 0 && d + 1 < |s| && s[d + 1] == ']'
  }

  /** The digits of the marker at the start of `s`. */
  function MarkerDigits(s: string): (r: string)
    requires MarkerAt(s)
    ensures r != [] && AllDigits(r)
  {
    var d := DigitRun(s[1..]);
    assert s[1..][..d] == s[1..d + 1];
    s[1..d + 1]
  }

  /** The numbers of the markers in `s`, left to right, matches not overlapping. */
  function Markers(s: string): seq<nat>
    decreases |s|
  {
    if s == [] then []
    else if MarkerAt(s) then
      var d := |MarkerDigits(s)|;
      [ParseDigits(MarkerDigits(s))] + Markers(s[d + 2..])
    else Markers(s[1..])
  }

  /** A text without '[' holds no marker. */
  lemma {:induction false} NoBracketNoMarkers(s: string)
    requires '[' !in s
    ensures Markers(s) == []
    decreases |s|
  {
    if s != [] {
      assert s[1..] <= s[1..];
      assert forall c :: c in s[1..] ==> c in s;
      NoBracketNoMarkers(s[1..]);
    }
  }

  /** The digit run of a numeral followed by a non-digit is the numeral. */
  lemma {:induction false} DigitRunOfNumeral(digits: string, rest: string)
    requires AllDigits(digits)
    requires rest == [] || !IsDigit(rest[0])
    ensures DigitRun(digits + rest) == |digits|
    decreases |digits|
  {
    if digits != [] {
      assert (digits + rest)[1..] == digits[1..] + rest;
      DigitRunOfNumeral(digits[1..], rest);
    }
  }

  /** The label `[n]` of context entry `n`. */
  function Label(n: nat): string {
    "[" + NatToString(n) + "]"
  }

  /** The label of entry `n`, read back as an answer, is the one marker `n`. */
  lemma LabelIsMarker(n: nat)
    ensures Markers(Label(n)) == [n]
  {
    var digits := NatToString(n);
    var s := Label(n);
    assert s[1..] == digits + "]";
    DigitRunOfNumeral(digits, "]");
    assert MarkerAt(s);
    assert MarkerDigits(s) == digits;
    ParseNatToString(n);
    assert s[|digits| + 2..] == [];
  }

  // ---------------------------------------------------------------------
  // Citations

  /** A citation as the API returns it. */
  datatype Citation = Citation(
    id: string,
    documentTitle: MetaValue,
    page: MetaValue,
    text: string,
    similarityScore: real)

  /** `metadata.get(key, default)`. */
  function Lookup(m: Metadata, key: string, default: MetaValue): MetaValue {
    if key in m then m[key] else default
  }

  /** Every chunk carries a metadata dictionary (the generator fails on one that does not). */
  predicate HasMetadata(chunks: seq<RetrievedChunk>) {
    forall i :: 0 <= i < |chunks| ==> chunks[i].metadata.Some?
  }

  /** The citation of one chunk: its fields, with "Unknown", "?" and 0.0 for missing ones. */
  function CitationOf(c: RetrievedChunk): Citation
    requires c.metadata.Some?
  {
    Citation(c.id,
      Lookup(c.metadata.value, "document_title", Str("Unknown")),
      Lookup(c.metadata.value, "page", Str("?")),
      c.text,
      match c.similarityScore case Some(s) => s case None => 0.0)
  }

  function Ids(cs: seq<Citation>): (r: seq<string>)
    ensures |r| == |cs| && forall k :: 0 <= k < |cs| ==> r[k] == cs[k].id
  {
    seq(|cs|, k requires 0 <= k < |cs| => cs[k].id)
  }

  function ChunkIds(chunks: seq<RetrievedChunk>): (r: seq<string>)
    ensures |r| == |chunks| && forall j :: 0 <= j < |chunks| ==> r[j] == chunks[j].id
  {
    seq(|chunks|, j requires 0 <= j < |chunks| => chunks[j].id)
  }

  /** Marker `n` is in range and so names `chunks[n - 1]`. */
  predicate InRange(n: nat, chunks: seq<RetrievedChunk>) {
    1 <= n <= |chunks|
  }

  /**
   * The citations of markers `ms`: each in-range marker cites its chunk,
   * unless a chunk with the same id is already cited.
   */
  function Cite(ms: seq<nat>, chunks: seq<RetrievedChunk>): seq<Citation>
    requires HasMetadata(chunks)
    decreases |ms|
  {
    if ms == [] then []
    else
      var prev := Cite(ms[..|ms| - 1], chunks);
      var n := ms[|ms| - 1];
      if InRange(n, chunks) && chunks[n - 1].id !in Ids(prev) then prev + [CitationOf(chunks[n - 1])]
      else prev
  }

  /** The ids the in-range markers resolve to, in marker order, repetitions kept. */
  function Resolved(ms: seq<nat>, chunks: seq<RetrievedChunk>): seq<string>
    decreases |ms|
  {
    if ms == [] then []
    else
      var n := ms[|ms| - 1];
      Resolved(ms[..|ms| - 1], chunks) + (if InRange(n, chunks) then [chunks[n - 1].id] else [])
  }

  /** `_extract_citations(answer_text, retrieved_chunks)`. */
  method ExtractCitations(answer: string, chunks: seq<RetrievedChunk>) returns (citations: seq<Citation>)
    requires HasMetadata(chunks)
    ensures citations == Cite(Markers(answer), chunks)
  {
    var ms := Markers(answer);
    citations := [];
    var seen: set<string> := {};
    var i := 0;
    while i < |ms|
      invariant 0 <= i <= |ms|
      invariant citations == Cite(ms[..i], chunks)
      invariant seen == Elems(Ids(citations))
    {
      var n := ms[i];
      assert ms[..i + 1][..i] == ms[..i];
      if 1 <= n <= |chunks| {
        var chunk := chunks[n - 1];
        if chunk.id !in seen {
          seen := seen + {chunk.id};
          citations := citations + [CitationOf(chunk)];
          assert Ids(citations) == Ids(citations[..|citations| - 1]) + [chunk.id];
        }
      }
      i := i + 1;
    }
    assert ms[..i] == ms;
  }

  /** Appending the citation of a chunk keeps every citation that of some chunk. */
  lemma AppendCitationOfChunk(prev: seq<Citation>, chunks: seq<RetrievedChunk>, j0: nat)
    requires HasMetadata(chunks) && j0 < |chunks|
    requires forall k :: 0 <= k < |prev| ==> exists j :: 0 <= j < |chunks| && prev[k] == CitationOf(chunks[j])
    ensures forall k :: 0 <= k < |prev + [CitationOf(chunks[j0])]| ==>
      exists j :: 0 <= j < |chunks| && (prev + [CitationOf(chunks[j0])])[k] == CitationOf(chunks[j])
  {
    var r := prev + [CitationOf(chunks[j0])];
    forall k | 0 <= k < |r| ensures exists j :: 0 <= j < |chunks| && r[k] == CitationOf(chunks[j]) {
      if k < |prev| {
        var j :| 0 <= j < |chunks| && prev[k] == CitationOf(chunks[j]);
        assert r[k] == prev[k];
      } else {
        assert r[k] == CitationOf(chunks[j0]);
      }
    }
  }

  /** Every citation is the citation of one of the chunks. */
  lemma {:induction false} CitationsAreOfChunks(ms: seq<nat>, chunks: seq<RetrievedChunk>)
    requires HasMetadata(chunks)
    ensures forall k :: 0 <= k < |Cite(ms, chunks)| ==>
      exists j :: 0 <= j < |chunks| && Cite(ms, chunks)[k] == CitationOf(chunks[j])
    decreases |ms|
  {
    if ms != [] {
      var prev := Cite(ms[..|ms| - 1], chunks);
      var n := ms[|ms| - 1];
      CitationsAreOfChunks(ms[..|ms| - 1], chunks);
      if InRange(n, chunks) && chunks[n - 1].id !in Ids(prev) {
        assert Cite(ms, chunks) == prev + [CitationOf(chunks[n - 1])];
        AppendCitationOfChunk(prev, chunks, n - 1);
      } else {
        assert Cite(ms, chunks) == prev;
        forall k | 0 <= k < |Cite(ms, chunks)|
          ensures exists j :: 0 <= j < |chunks| && Cite(ms, chunks)[k] == CitationOf(chunks[j])
        {
          assert Cite(ms, chunks)[k] == prev[k];
        }
      }
    } else {
      assert Cite(ms, chunks) == [];
    }
  }

  /** No two citations share an id. */
  lemma {:induction false} CitationIdsDistinct(ms: seq<nat>, chunks: seq<RetrievedChunk>)
    requires HasMetadata(chunks)
    ensures forall a, b :: 0 <= a < b < |Cite(ms, chunks)| ==> Cite(ms, chunks)[a].id != Cite(ms, chunks)[b].id
    decreases |ms|
  {
    if ms != [] {
      var prev := Cite(ms[..|ms| - 1], chunks);
      CitationIdsDistinct(ms[..|ms| - 1], chunks);
      var r := Cite(ms, chunks);
      var n := ms[|ms| - 1];
      forall a, b | 0 <= a < b < |r|
        ensures r[a].id != r[b].id
      {
        if b >= |prev| {
          assert r == prev + [CitationOf(chunks[n - 1])];
          assert r[a] == prev[a] && r[b].id == chunks[n - 1].id;
          assert Ids(prev)[a] == r[a].id;
        } else {
          assert r[a] == prev[a] && r[b] == prev[b];
        }
      }
    }
  }

  /**
   * An id is cited exactly when some in-range marker resolves to it: markers
   * out of range (`[0]`, or `[7]` with three chunks) are ignored, and a
   * repeated chunk id is cited once.
   */
  lemma {:induction false} CitedIffResolved(ms: seq<nat>, chunks: seq<RetrievedChunk>)
    requires HasMetadata(chunks)
    ensures forall x :: x in Ids(Cite(ms, chunks)) <==> x in Resolved(ms, chunks)
    decreases |ms|
  {
    if ms != [] {
      var init := ms[..|ms| - 1];
      CitedIffResolved(init, chunks);
      var prev := Cite(init, chunks);
      var n := ms[|ms| - 1];
      if InRange(n, chunks) && chunks[n - 1].id !in Ids(prev) {
        assert Ids(Cite(ms, chunks)) == Ids(prev) + [chunks[n - 1].id];
      }
    }
  }

  /** The ids resolved by a prefix of the markers are a prefix of those resolved by all of them. */
  lemma {:induction false} ResolvedPrefix(ms: seq<nat>, chunks: seq<RetrievedChunk>, i: nat)
    requires i <= |ms|
    ensures Resolved(ms[..i], chunks) <= Resolved(ms, chunks)
    decreases |ms|
  {
    if i < |ms| {
      assert ms[..|ms| - 1][..i] == ms[..i];
      ResolvedPrefix(ms[..|ms| - 1], chunks, i);
    } else {
      assert ms[..i] == ms;
    }
  }

  /** A marker in range resolves to an id that gets cited. */
  lemma MarkerInRangeIsCited(ms: seq<nat>, chunks: seq<RetrievedChunk>, m: nat)
    requires HasMetadata(chunks)
    requires m < |ms| && InRange(ms[m], chunks)
    ensures chunks[ms[m] - 1].id in Ids(Cite(ms, chunks))
  {
    var upto := ms[..m + 1];
    assert upto[..|upto| - 1] == ms[..m];
    assert chunks[ms[m] - 1].id in Resolved(upto, chunks);
    ResolvedPrefix(ms, chunks, m + 1);
    CitedIffResolved(ms, chunks);
  }

  /** Position of the first in-range marker that resolves to `x`. */
  function FirstResolving(ms: seq<nat>, chunks: seq<RetrievedChunk>, x: string): nat
    requires x in Resolved(ms, chunks)
  {
    IndexOf(Resolved(ms, chunks), x).value
  }

  lemma {:induction false} IndexOfExtend(xs: seq<string>, ys: seq<string>, x: string)
    requires x in xs
    ensures IndexOf(xs + ys, x) == IndexOf(xs, x)
    decreases |xs|
  {
    if xs[0] != x {
      assert (xs + ys)[1..] == xs[1..] + ys;
      IndexOfExtend(xs[1..], ys, x);
    }
  }

  lemma {:induction false} IndexOfAppendNew(xs: seq<string>, x: string)
    requires x !in xs
    ensures IndexOf(xs + [x], x) == Some(|xs|)
    decreases |xs|
  {
    if xs != [] {
      assert (xs + [x])[1..] == xs[1..] + [x];
      IndexOfAppendNew(xs[1..], x);
    }
  }

  /** Citations are ordered by the first in-range marker that resolves to each id. */
  lemma {:induction false} CitationOrder(ms: seq<nat>, chunks: seq<RetrievedChunk>)
    requires HasMetadata(chunks)
    ensures forall k :: 0 <= k < |Cite(ms, chunks)| ==> Cite(ms, chunks)[k].id in Resolved(ms, chunks)
    ensures forall a, b :: 0 <= a < b < |Cite(ms, chunks)| ==>
      FirstResolving(ms, chunks, Cite(ms, chunks)[a].id) < FirstResolving(ms, chunks, Cite(ms, chunks)[b].id)
    decreases |ms|
  {
    var r := Cite(ms, chunks);
    CitedIffResolved(ms, chunks);
    forall k | 0 <= k < |r|
      ensures r[k].id in Resolved(ms, chunks)
    {
      assert Ids(r)[k] == r[k].id;
    }
    if ms != [] {
      var init := ms[..|ms| - 1];
      var prev := Cite(init, chunks);
      var before := Resolved(init, chunks);
      var n := ms[|ms| - 1];
      var added := if InRange(n, chunks) then [chunks[n - 1].id] else [];
      assert Resolved(ms, chunks) == before + added;
      CitationOrder(init, chunks);
      CitedIffResolved(init, chunks);
      forall k | 0 <= k < |prev|
        ensures FirstResolving(ms, chunks, prev[k].id) == FirstResolving(init, chunks, prev[k].id) < |before|
      {
        IndexOfExtend(before, added, prev[k].id);
      }
      if InRange(n, chunks) && chunks[n - 1].id !in Ids(prev) {
        var x := chunks[n - 1].id;
        assert x !in before;
        IndexOfAppendNew(before, x);
        assert FirstResolving(ms, chunks, x) == |before|;
        assert r == prev + [CitationOf(chunks[n - 1])];
        forall a, b | 0 <= a < b < |r|
          ensures FirstResolving(ms, chunks, r[a].id) < FirstResolving(ms, chunks, r[b].id)
        {
          assert r[a] == prev[a];
          if b < |prev| {
            assert r[b] == prev[b];
          }
        }
      } else {
        assert r == prev;
      }
    }
  }

  /** There are never more citations than chunks. */
  lemma CitationCount(ms: seq<nat>, chunks: seq<RetrievedChunk>)
    requires HasMetadata(chunks)
    ensures |Cite(ms, chunks)| <= |chunks|
  {
    var r := Cite(ms, chunks);
    CitationIdsDistinct(ms, chunks);
    CitationsAreOfChunks(ms, chunks);
    var ids := Ids(r);
    ElemsCard(ids);
    ElemsCard(ChunkIds(chunks));
    forall x | x in Elems(ids)
      ensures x in Elems(ChunkIds(chunks))
    {
      var k :| 0 <= k < |ids| && ids[k] == x;
      var j :| 0 <= j < |chunks| && r[k] == CitationOf(chunks[j]);
      assert ChunkIds(chunks)[j] == x;
    }
    SubsetCard(Elems(ids), Elems(ChunkIds(chunks)));
  }

  /** An answer without '[' cites nothing. */
  lemma NoMarkersNoCitations(answer: string, chunks: seq<RetrievedChunk>)
    requires HasMetadata(chunks) && '[' !in answer
    ensures Cite(Markers(answer), chunks) == []
  {
    NoBracketNoMarkers(answer);
  }

  // ---------------------------------------------------------------------
  // The context and the answer

  /** How a metadata value appears in an f-string. */
  function Show(v: MetaValue): string {
    match v
    case Str(s) => s
    case Int(i) => IntToString(i)
  }

  /** What follows the label in a context entry: id, source, page, then the text. */
  function EntryBody(c: RetrievedChunk): string
    requires c.metadata.Some?
  {
    var m := c.metadata.value;
    " (ID: " + c.id + ", Source: " + Show(Lookup(m, "document_title", Str("Unknown")))
      + ", Page: " + Show(Lookup(m, "page", Str("?"))) + ")\n" + c.text + "\n"
  }

  /** Context entry `n` (1-based) for a chunk: its label, then its body. */
  function ContextEntry(n: nat, c: RetrievedChunk): string
    requires c.metadata.Some?
  {
    Label(n) + EntryBody(c)
  }

  function ContextEntries(chunks: seq<RetrievedChunk>): (r: seq<string>)
    requires HasMetadata(chunks)
    ensures |r| == |chunks|
  {
    seq(|chunks|, i requires 0 <= i < |chunks| => ContextEntry(i + 1, chunks[i]))
  }

  /** The context: the entries joined by newlines. */
  function Context(chunks: seq<RetrievedChunk>): string
    requires HasMetadata(chunks)
  {
    Join(ContextEntries(chunks), "\n")
  }

  /** The loop of `generate_answer` that numbers the chunks from 1. */
  method BuildContext(chunks: seq<RetrievedChunk>) returns (context: string)
    requires HasMetadata(chunks)
    ensures context == Context(chunks)
  {
    var parts: seq<string> := [];
    var i := 0;
    while i < |chunks|
      invariant 0 <= i <= |chunks|
      invariant parts == ContextEntries(chunks)[..i]
    {
      parts := parts + [ContextEntry(i + 1, chunks[i])];
      i := i + 1;
    }
    assert parts == ContextEntries(chunks);
    context := Join(parts, "\n");
  }

  /**
   * Context entry `i` (1-based) starts with the label `[i]`, and an answer
   * consisting of that label cites exactly `chunks[i - 1]`.
   */
  lemma ContextLabelCitesItsChunk(chunks: seq<RetrievedChunk>, i: nat)
    requires HasMetadata(chunks) && 1 <= i <= |chunks|
    ensures Label(i) <= ContextEntries(chunks)[i - 1]
    ensures Cite(Markers(Label(i)), chunks) == [CitationOf(chunks[i - 1])]
  {
    EntryAtStartsWithLabel(chunks, i);
    LabelCitesOne(i, chunks);
  }

  lemma EntryAtStartsWithLabel(chunks: seq<RetrievedChunk>, i: nat)
    requires HasMetadata(chunks) && 1 <= i <= |chunks|
    ensures Label(i) <= ContextEntries(chunks)[i - 1]
  {
    assert ContextEntries(chunks)[i - 1] == ContextEntry(i, chunks[i - 1]);
    EntryStartsWithLabel(i, chunks[i - 1]);
  }

  lemma LabelCitesOne(i: nat, chunks: seq<RetrievedChunk>)
    requires HasMetadata(chunks) && 1 <= i <= |chunks|
    ensures Cite(Markers(Label(i)), chunks) == [CitationOf(chunks[i - 1])]
  {
    LabelIsMarker(i);
    CiteOne(i, chunks);
  }

  /** A single in-range marker cites its chunk. */
  lemma CiteOne(i: nat, chunks: seq<RetrievedChunk>)
    requires HasMetadata(chunks) && 1 <= i <= |chunks|
    ensures Cite([i], chunks) == [CitationOf(chunks[i - 1])]
  {
    var one := [i];
    assert one[..0] == [];
    assert Cite(one[..0], chunks) == [];
    assert Ids([]) == [];
  }

  lemma EntryStartsWithLabel(n: nat, c: RetrievedChunk)
    requires c.metadata.Some?
    ensures Label(n) <= ContextEntry(n, c)
  {
    var l := Label(n);
    assert ContextEntry(n, c)[..|l|] == l;
  }

  /** What `generate_answer` returns. */
  datatype Answer = Answer(answer: string, citations: seq<Citation>)

  const NotFoundAnswer: string :=
    "I couldn't find relevant information in the documents to answer your question. Please try rephrasing your query or check if the relevant documents have been ingested."

  /** The model: reply text, or the text of the exception it raised. */
  type Model = (string, string) -> Result<string, string>

  /**
   * `generate_answer(query, retrieved_chunks)`: `Err` is the exception that
   * escapes when a chunk has no metadata dictionary.
   */
  function AnswerOf(query: string, chunks: seq<RetrievedChunk>, model: Model): Result<Answer, string>
  {
    if chunks == [] then Ok(Answer(NotFoundAnswer, []))
    else if !HasMetadata(chunks) then Err("'NoneType' object has no attribute 'get'")
    else
      match model(Context(chunks), query)
      case Err(e) => Ok(Answer("Error generating answer: " + e, []))
      case Ok(reply) =>
        var text := Strip(reply);
        Ok(Answer(text, Cite(Markers(text), chunks)))
  }

  method GenerateAnswer(query: string, chunks: seq<RetrievedChunk>, model: Model) returns (r: Result<Answer, string>)
    ensures r == AnswerOf(query, chunks, model)
  {
    if |chunks| == 0 {
      return Ok(Answer(NotFoundAnswer, []));
    }
    var i := 0;
    while i < |chunks|
      invariant 0 <= i <= |chunks|
      invariant forall j :: 0 <= j < i ==> chunks[j].metadata.Some?
    {
      if chunks[i].metadata.None? {
        return Err("'NoneType' object has no attribute 'get'");
      }
      i := i + 1;
    }
    var context := BuildContext(chunks);
    match model(context, query)
    case Err(e) =>
      r := Ok(Answer("Error generating answer: " + e, []));
    case Ok(reply) =>
      var text := Strip(reply);
      var citations := ExtractCitations(text, chunks);
      r := Ok(Answer(text, citations));
  }

  /** With no chunks the fixed not-found answer comes back, whatever the model would say. */
  lemma NoChunksNoModel(query: string, m1: Model, m2: Model)
    ensures AnswerOf(query, [], m1) == AnswerOf(query, [], m2) == Ok(Answer(NotFoundAnswer, []))
  {
  }

  /** A model failure gives the error text and no citations. */
  lemma ModelFailureNoCitations(query: string, chunks: seq<RetrievedChunk>, model: Model)
    requires chunks != [] && HasMetadata(chunks)
    requires model(Context(chunks), query).Err?
    ensures AnswerOf(query, chunks, model)
      == Ok(Answer("Error generating answer: " + model(Context(chunks), query).error, []))
  {
  }

  /** Every citation of an answer is the citation of one of the retrieved chunks, and there are no more of them than chunks. */
  lemma AnswerCitesRetrievedChunks(query: string, chunks: seq<RetrievedChunk>, model: Model)
    requires AnswerOf(query, chunks, model).Ok?
    ensures HasMetadata(chunks)
    ensures |AnswerOf(query, chunks, model).value.citations| <= |chunks|
    ensures forall k :: 0 <= k < |AnswerOf(query, chunks, model).value.citations| ==>
      exists j :: 0 <= j < |chunks| && AnswerOf(query, chunks, model).value.citations[k] == CitationOf(chunks[j])
  {
    if chunks != [] && HasMetadata(chunks) && model(Context(chunks), query).Ok? {
      var text := Strip(model(Context(chunks), query).value);
      CitationsAreOfChunks(Markers(text), chunks);
      CitationCount(Markers(text), chunks);
    }
  }
}
