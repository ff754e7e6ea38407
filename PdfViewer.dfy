/**
 * src/components/reading/PdfViewer.jsx: which pages feed the text handed
 * to the AI assistant, how that text is accumulated and cut, and the page
 * navigation clamps. Loading and rendering the PDF is not modelled; a
 * document is the sequence of its pages, each the list of its text items.
 */
module PdfViewer {
  import opened Strings

  /** `maxChars` in `extractText`. */
  const MaxChars := 15000

  function Min(a: int, b: int): int { if a <= b then a else b }
  function Max(a: int, b: int): int { if a >= b then a else b }

  /** The pages `lo`, `lo + 1`, ..., `hi - 1`. */
  function Range(lo: int, hi: int): (r: seq<int>)
    ensures |r| == if lo <= hi then hi - lo else 0
    ensures forall k :: 0 <= k < |r| ==> r[k] == lo + k
    decreases hi - lo
  {
    if lo >= hi then [] else Range(lo, hi - 1) + [hi - 1]
  }

  /**
   * The pages the extraction reads: the first three (the abstract) and the
   * last two (the conclusion), each once, in page order.
   */
  function PlannedPages(numPages: nat): (r: seq<int>)
    ensures forall k :: 0 <= k < |r| ==> 1 <= r[k] <= numPages
  {
    if numPages <= 4 then Range(1, numPages + 1) else [1, 2, 3, numPages - 1, numPages]
  }

  /** Strictly increasing: no page is read twice and pages come in order. */
  predicate Increasing(s: seq<int>) {
    forall j, k :: 0 <= j < k < |s| ==> s[j] < s[k]
  }

  /**
   * The plan reads at most five pages, in increasing order, always the first
   * and the last page of a non-empty document, and every page of a document
   * of at most four pages.
   */
  lemma PlannedPagesShape(numPages: nat)
    ensures Increasing(PlannedPages(numPages))
    ensures |PlannedPages(numPages)| == Min(numPages, 5)
    ensures numPages >= 1 ==> PlannedPages(numPages)[0] == 1
    ensures numPages >= 1 ==> PlannedPages(numPages)[|PlannedPages(numPages)| - 1] == numPages
    ensures numPages <= 4 ==> forall p :: p in PlannedPages(numPages) <==> 1 <= p <= numPages
  {
  }

  /** A page read in the second loop is never among those already chosen. */
  lemma FreshPage(first: int, start: int, i: int)
    requires first <= 3 && 4 <= start <= i
    ensures i !in Range(1, first + 1) + Range(start, i)
  {
  }

  /** What the two loops leave behind is the plan. */
  lemma LoopsMakePlan(numPages: nat)
    ensures var start := Max(numPages - 1, 4);
      Range(1, Min(3, numPages) + 1) + Range(start, Max(start, numPages + 1)) == PlannedPages(numPages)
  {
    var start := Max(numPages - 1, 4);
    if numPages <= 3 {
      assert Range(start, Max(start, numPages + 1)) == [];
    } else if numPages == 4 {
      assert Range(1, 4) + Range(4, 5) == Range(1, 5);
    } else {
      assert Range(1, 4) + Range(numPages - 1, numPages + 1) == [1, 2, 3, numPages - 1, numPages];
    }
  }

  /**
   * The two loops of `extractText` that build `pagesToExtract`: pages
   * 1..min(3, numPages), then max(numPages - 1, 4)..numPages where absent.
   */
  method PagesToExtract(numPages: nat) returns (pages: seq<int>)
    ensures pages == PlannedPages(numPages)
  {
    pages := [];
    var first := Min(3, numPages);
    var i := 1;
    while i <= first
      invariant 1 <= i <= first + 1
      invariant pages == Range(1, i)
    {
      pages := pages + [i];
      i := i + 1;
    }
    var start := Max(numPages - 1, 4);
    i := start;
    while i <= numPages
      invariant start <= i <= Max(start, numPages + 1)
      invariant pages == Range(1, first + 1) + Range(start, i)
    {
      FreshPage(first, start, i);
      if i !in pages {
        pages := pages + [i];
      }
      i := i + 1;
    }
    LoopsMakePlan(numPages);
  }

  /**
   * One page's contribution: its text items joined by spaces, then a blank
   * line. A page outside the document has no items; the plan never holds one.
   */
  function Chunk(document: seq<seq<string>>, page: int): string
  {
    (if 1 <= page <= |document| then Join(document[page - 1], " ") else "") + "\n\n"
  }

  /** The text of `pages`, read in order: the chunks one after another. */
  function Gathered(document: seq<seq<string>>, pages: seq<int>): string
  {
    if pages == [] then "" else Gathered(document, pages[..|pages| - 1]) + Chunk(document, pages[|pages| - 1])
  }

  /** Reading one more page appends exactly its chunk. */
  lemma GatheredSnoc(document: seq<seq<string>>, pages: seq<int>, k: nat)
    requires k < |pages|
    ensures Gathered(document, pages[..k + 1]) == Gathered(document, pages[..k]) + Chunk(document, pages[k])
  {
    assert pages[..k + 1][..k] == pages[..k];
  }

  /** Reading fewer pages gives a prefix of the whole text. */
  lemma {:induction false} GatheredPrefix(document: seq<seq<string>>, pages: seq<int>, k: nat)
    requires k <= |pages|
    ensures Gathered(document, pages[..k]) <= Gathered(document, pages)
    decreases |pages|
  {
    if k < |pages| {
      var init := pages[..|pages| - 1];
      GatheredPrefix(document, init, k);
      assert init[..k] == pages[..k];
    } else {
      assert pages[..k] == pages;
    }
  }

  /** `s.slice(0, n)` for `n >= 0`. */
  function Slice(s: string, n: nat): (r: string)
    ensures r <= s && |r| == Min(|s|, n)
  {
    if |s| <= n then s else s[..n]
  }

  /**
   * Cutting the text of the pages read before the limit, or of all of them,
   * gives a prefix of the whole text, and the whole text when it is short.
   */
  lemma CutText(document: seq<seq<string>>, pages: seq<int>, fetched: nat)
    requires fetched <= |pages|
    requires fetched == |pages| || |Gathered(document, pages[..fetched])| >= MaxChars
    ensures Slice(Gathered(document, pages[..fetched]), MaxChars) <= Gathered(document, pages)
    ensures |Gathered(document, pages)| < MaxChars ==>
      Slice(Gathered(document, pages[..fetched]), MaxChars) == Gathered(document, pages)
  {
    GatheredPrefix(document, pages, fetched);
    if fetched == |pages| {
      assert pages[..fetched] == pages;
    }
  }

  /**
   * The reading loop of `extractText`: `pages` are read in order, each only
   * while the text gathered so far is below `MaxChars`. The text only grows,
   * so it suffices that it was below the limit before the last page read.
   * `fetched` is how many pages were read.
   */
  method Gather(document: seq<seq<string>>, pages: seq<int>) returns (fullText: string, fetched: nat)
    ensures fetched <= |pages| && fullText == Gathered(document, pages[..fetched])
    ensures fetched > 0 ==> |Gathered(document, pages[..fetched - 1])| < MaxChars
    ensures fetched == |pages| || |fullText| >= MaxChars
  {
    fullText := "";
    fetched := 0;
    while fetched < |pages|
      invariant fetched <= |pages|
      invariant fullText == Gathered(document, pages[..fetched])
      invariant fetched > 0 ==> |Gathered(document, pages[..fetched - 1])| < MaxChars
    {
      if |fullText| >= MaxChars {
        break;
      }
      var pageNum := pages[fetched];
      var pageText := if 1 <= pageNum <= |document| then Join(document[pageNum - 1], " ") else "";
      GatheredSnoc(document, pages, fetched);
      fullText := fullText + (pageText + "\n\n");
      fetched := fetched + 1;
    }
  }

  /**
   * `extractText` on a document: the text of the planned pages read before
   * the limit, cut to `MaxChars`. By `CutText` it is a prefix of the text of
   * all planned pages, and all of it when that is shorter than the limit.
   */
  method ExtractText(document: seq<seq<string>>) returns (text: string, fetched: nat)
    ensures fetched <= |PlannedPages(|document|)|
    ensures fetched > 0 ==> |Gathered(document, PlannedPages(|document|)[..fetched - 1])| < MaxChars
    ensures fetched == |PlannedPages(|document|)| || |Gathered(document, PlannedPages(|document|)[..fetched])| >= MaxChars
    ensures text == Slice(Gathered(document, PlannedPages(|document|)[..fetched]), MaxChars)
  {
    var pages := PagesToExtract(|document|);
    var fullText;
    fullText, fetched := Gather(document, pages);
    text := Slice(fullText, MaxChars);
  }

  /** `handlePrevPage`: one page back, never below page 1. */
  function PrevPage(current: int): (r: int)
    ensures r >= 1 && r <= Max(current, 1)
    ensures current > 1 ==> r == current - 1
  {
    Max(current - 1, 1)
  }

  /** `handleNextPage`: one page on, never beyond `totalPages`. */
  function NextPage(current: int, totalPages: int): (r: int)
    ensures r <= totalPages && r <= current + 1
    ensures current < totalPages ==> r == current + 1
  {
    Min(current + 1, totalPages)
  }

  /** Going back and then on returns to the page one started from, except on page 1. */
  lemma PrevThenNext(current: int, totalPages: int)
    requires 1 < current <= totalPages
    ensures NextPage(PrevPage(current), totalPages) == current
  {
  }

  /** Going on and then back returns to the page one started from, except on the last page. */
  lemma NextThenPrev(current: int, totalPages: int)
    requires 1 <= current < totalPages
    ensures PrevPage(NextPage(current, totalPages)) == current
  {
  }

  /** The page navigation state of the viewer. */
  class Pager {
    var currentPage: int
    var totalPages: int

    /** A page in the loaded document is shown. */
    predicate InDocument()
      reads this
    {
      1 <= currentPage <= totalPages
    }

    /** The state before a document is loaded: page 1 of 0. */
    constructor ()
      ensures currentPage == 1 && totalPages == 0
    {
      currentPage := 1;
      totalPages := 0;
    }

    /** A document with `numPages` pages was loaded: show its first page. */
    method Load(numPages: nat)
      modifies this
      ensures totalPages == numPages && currentPage == 1
      ensures numPages >= 1 ==> InDocument()
    {
      totalPages := numPages;
      currentPage := 1;
    }

    method Prev()
      modifies this
      ensures currentPage == PrevPage(old(currentPage)) && totalPages == old(totalPages)
      ensures old(InDocument()) ==> InDocument()
    {
      currentPage := Max(currentPage - 1, 1);
    }

    method Next()
      modifies this
      ensures currentPage == NextPage(old(currentPage), old(totalPages)) && totalPages == old(totalPages)
      ensures old(InDocument()) ==> InDocument()
    {
      currentPage := Min(currentPage + 1, totalPages);
    }
  }
}
