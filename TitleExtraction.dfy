/**
 * The title heuristic of the document processor: a title guessed from the
 * first lines of the first page's text.
 */
module TitleExtraction {
  import opened Wrappers
  import opened Text
  import opened Lists
  import opened DocumentProcessor

  /** Lines that look like page numbers, dates or copyright notices. */
  predicate LooksLikeMetadata(line: string) {
    var l := Lower(line);
    Contains(l, "page") || Contains(l, "date:") || Contains(l, "copyright") || Contains(l, "\U{a9}")
  }

  predicate EndsSentence(line: string) {
    line != [] && (line[|line| - 1] == '.' || line[|line| - 1] == '!' || line[|line| - 1] == '?')
  }

  datatype LineScan = Found(title: string) | Aborted | NotFound

  /** The loop over the first five lines, from line `k` on; `Aborted` is the ValueError of `lines.index`. */
  function ScanLines(lines: seq<string>, k: nat): LineScan
    decreases 5 - k
  {
    if k >= 5 || k >= |lines| then NotFound
    else
      var line := Strip(lines[k]);
      if line == [] || |line| < 5 || |line| > 200 || LooksLikeMetadata(line) then ScanLines(lines, k + 1)
      else if EndsSentence(line) && |line| < 150 then Found(Strip(line))
      else if |line| < 100 then
        match IndexOf(lines, line)
        case None => Aborted
        case Some(i) => if i < 2 then Found(line) else ScanLines(lines, k + 1)
      else ScanLines(lines, k + 1)
  }

  /** `extract_title_from_content`: a title guessed from the start of the first page, or `None`. */
  function ExtractTitle(pages: seq<Page>): Option<string>
  {
    if pages == [] then None
    else
      var first := Strip(pages[0].text);
      if first == [] then None
      else
        var lines := Split(first, '\n');
        match ScanLines(lines, 0)
        case Found(t) => Some(t)
        case Aborted => None
        case NotFound =>
          var sentence := Strip(Split(first, '.')[0]);
          if 10 <= |sentence| <= 100 then Some(sentence) else None
  }

  /** A title taken from line `k` of the first five lines. */
  ghost predicate LineTitle(lines: seq<string>, t: string) {
    exists k :: 0 <= k < 5 && k < |lines| && Strip(lines[k]) == t
      && 5 <= |t| < 150 && NoOuterSpace(t) && !LooksLikeMetadata(t)
      && (EndsSentence(t) || (|t| < 100 && IndexOf(lines, t).Some? && IndexOf(lines, t).value < 2))
  }

  lemma {:induction false} ScanLinesShape(lines: seq<string>, k: nat)
    ensures ScanLines(lines, k).Found? ==> LineTitle(lines, ScanLines(lines, k).title)
    decreases 5 - k
  {
    if k < 5 && k < |lines| {
      var line := Strip(lines[k]);
      StripNoOuterSpace(lines[k]);
      StripIdempotent(lines[k]);
      if line == [] || |line| < 5 || |line| > 200 || LooksLikeMetadata(line) {
        ScanLinesShape(lines, k + 1);
      } else if EndsSentence(line) && |line| < 150 {
        assert Strip(lines[k]) == Strip(line);
      } else if |line| < 100 {
        if IndexOf(lines, line).Some? && IndexOf(lines, line).value >= 2 {
          ScanLinesShape(lines, k + 1);
        }
      } else {
        ScanLinesShape(lines, k + 1);
      }
    }
  }

  /**
   * The title is `None` when there are no pages or the first page is blank;
   * otherwise a title is either a stripped line among the first five that
   * passes the line tests, or the stripped text before the first '.' when it
   * has 10 to 100 characters.
   */
  lemma TitleShape(pages: seq<Page>)
    ensures pages == [] || Strip(pages[0].text) == [] ==> ExtractTitle(pages) == None
    ensures ExtractTitle(pages).Some? ==>
      var first := Strip(pages[0].text);
      var t := ExtractTitle(pages).value;
      || LineTitle(Split(first, '\n'), t)
      || (t == Strip(Split(first, '.')[0]) && 10 <= |t| <= 100)
  {
    if pages != [] {
      var first := Strip(pages[0].text);
      if first != [] {
        var lines := Split(first, '\n');
        ScanLinesShape(lines, 0);
        match ScanLines(lines, 0)
        case Found(t) =>
          assert ExtractTitle(pages) == Some(t);
        case Aborted =>
          assert ExtractTitle(pages) == None;
        case NotFound =>
      }
    }
  }

  /** A line that fails the length or metadata tests is skipped. */
  lemma ScanSkips(lines: seq<string>, k: nat)
    requires k < 5 && k < |lines|
    requires |Strip(lines[k])| < 5
    ensures ScanLines(lines, k) == ScanLines(lines, k + 1)
  {
  }

  /**
   * A short line that does not end a sentence, whose stripped form is not
   * itself one of the lines, stops the scan with the ValueError of `lines.index`.
   */
  lemma ScanAborts(lines: seq<string>, k: nat)
    requires k < 5 && k < |lines|
    requires var line := Strip(lines[k]);
      5 <= |line| < 100 && !LooksLikeMetadata(line) && !EndsSentence(line) && line !in lines
    ensures ScanLines(lines, k) == Aborted
  {
  }

  /** An aborted scan makes the whole heuristic give no title. */
  lemma AbortedGivesNoTitle(pages: seq<Page>)
    requires pages != [] && Strip(pages[0].text) != []
    requires ScanLines(Split(Strip(pages[0].text), '\n'), 0) == Aborted
    ensures ExtractTitle(pages) == None
  {
  }

  /**
   * `lines.index(line)` looks the stripped line up among the unstripped ones:
   * when the second line is an indented short candidate (and the first is
   * skipped), the ValueError makes the whole heuristic give no title, and
   * the first-sentence fallback is never tried.
   */
  lemma IndentedSecondLineGivesNoTitle(pages: seq<Page>)
    requires pages != [] && Strip(pages[0].text) != []
    requires var lines := Split(Strip(pages[0].text), '\n');
      && 2 <= |lines| && |Strip(lines[0])| < 5
      && var line := Strip(lines[1]);
      && 5 <= |line| < 100 && !LooksLikeMetadata(line) && !EndsSentence(line) && line !in lines
    ensures ExtractTitle(pages) == None
  {
    var lines := Split(Strip(pages[0].text), '\n');
    ScanSkips(lines, 0);
    ScanAborts(lines, 1);
  }
}
