/**
 * The document story: the flat sequence of flowables the generators build, one page
 * per record with a page break between pages, and how the document splits it into pages.
 */
module Flow {

  /** The paragraph style a paragraph is drawn with. */
  datatype Role = Term | Pronunciation | Definition | QuoteText | Author

  /** One flowable: a vertical spacer, a styled paragraph, the separator line, or a page break. */
  datatype Element =
    | Spacer(height: real)
    | Para(text: string, role: Role)
    | Line(length: real, thickness: int)
    | PageBreak

  /** The content of one record's page: it opens with its placement spacer and holds no break. */
  predicate WellFormedPage(page: seq<Element>) {
    |page| > 0 && page[0].Spacer? && PageBreak !in page
  }

  /**
   * The story the generators build: the pages in order with a page break before every
   * page but the first.
   */
  function Join(pages: seq<seq<Element>>): seq<Element> {
    if |pages| == 0 then []
    else if |pages| == 1 then pages[0]
    else Join(pages[..|pages| - 1]) + [PageBreak] + pages[|pages| - 1]
  }

  /** Adding a page to a story adds a page break first, unless the story is empty. */
  lemma JoinAppend(pages: seq<seq<Element>>, page: seq<Element>)
    ensures Join(pages + [page]) == if pages == [] then page else Join(pages) + [PageBreak] + page
  {
    assert (pages + [page])[..|pages|] == pages;
  }

  /**
   * The pages a story lays out on: every page break starts a new page, so there is one
   * page more than there are breaks and no page holds a break.
   */
  function SplitPages(story: seq<Element>): (pages: seq<seq<Element>>)
    ensures |pages| >= 1
  {
    if story == [] then [[]]
    else
      var rest := SplitPages(story[1..]);
      if story[0] == PageBreak then [[]] + rest
      else [[story[0]] + rest[0]] + rest[1..]
  }

  /** Splitting any story gives one page more than it has breaks, and no page holds a break. */
  lemma {:induction false} SplitPagesShape(story: seq<Element>)
    ensures |SplitPages(story)| == multiset(story)[PageBreak] + 1
    ensures forall k :: 0 <= k < |SplitPages(story)| ==> PageBreak !in SplitPages(story)[k]
  {
    if story != [] {
      SplitPagesShape(story[1..]);
      assert story == [story[0]] + story[1..];
    }
  }

  lemma {:induction false} SplitBreakFree(p: seq<Element>)
    requires PageBreak !in p
    ensures SplitPages(p) == [p]
  {
    if p != [] {
      assert PageBreak !in p[1..];
      SplitBreakFree(p[1..]);
      assert [p[0]] + p[1..] == p;
    }
  }

  lemma {:induction false} SplitAfterBreak(x: seq<Element>, p: seq<Element>)
    requires PageBreak !in p
    ensures SplitPages(x + [PageBreak] + p) == SplitPages(x) + [p]
    decreases |x|
  {
    var s := x + [PageBreak] + p;
    if x == [] {
      assert s[1..] == p;
      SplitBreakFree(p);
    } else {
      assert s[0] == x[0];
      assert s[1..] == x[1..] + [PageBreak] + p;
      SplitAfterBreak(x[1..], p);
    }
  }

  /** Splitting the joined story gives back exactly the pages, in order. */
  lemma {:induction false} SplitJoin(pages: seq<seq<Element>>)
    requires |pages| >= 1
    requires forall k :: 0 <= k < |pages| ==> PageBreak !in pages[k]
    ensures SplitPages(Join(pages)) == pages
  {
    if |pages| == 1 {
      SplitBreakFree(pages[0]);
    } else {
      var init := pages[..|pages| - 1];
      SplitJoin(init);
      SplitAfterBreak(Join(init), pages[|pages| - 1]);
      assert init + [pages[|pages| - 1]] == pages;
    }
  }

  /** The story holds one page break fewer than it has pages. */
  lemma {:induction false} BreakCount(pages: seq<seq<Element>>)
    requires |pages| >= 1
    requires forall k :: 0 <= k < |pages| ==> PageBreak !in pages[k]
    ensures multiset(Join(pages))[PageBreak] == |pages| - 1
  {
    if |pages| > 1 {
      var init := pages[..|pages| - 1];
      BreakCount(init);
      assert multiset(pages[|pages| - 1])[PageBreak] == 0;
    }
  }

  /**
   * Every page break is immediately followed by the next page's spacer; a non-empty story
   * starts with a spacer and does not end with a page break.
   */
  lemma {:induction false} BreaksPrecedeSpacers(pages: seq<seq<Element>>)
    requires forall k :: 0 <= k < |pages| ==> WellFormedPage(pages[k])
    ensures var story := Join(pages);
      forall i :: 0 <= i < |story| && story[i] == PageBreak ==> i + 1 < |story| && story[i + 1].Spacer?
    ensures |pages| > 0 ==>
      var story := Join(pages);
      |story| > 0 && story[0].Spacer? && story[|story| - 1] != PageBreak
  {
    if |pages| > 1 {
      var init := pages[..|pages| - 1];
      var last := pages[|pages| - 1];
      BreaksPrecedeSpacers(init);
      var j := Join(init);
      var story := Join(pages);
      assert story == j + [PageBreak] + last;
      forall i | |j| < i < |story|
        ensures story[i] != PageBreak
      {
        assert story[i] == last[i - |j| - 1];
        assert last[i - |j| - 1] in last;
      }
      forall i | 0 <= i < |story| && story[i] == PageBreak
        ensures i + 1 < |story| && story[i + 1].Spacer?
      {
        if i < |j| {
          assert j[i] == PageBreak;
        }
      }
      assert story[|story| - 1] == last[|last| - 1];
      assert last[|last| - 1] in last;
    } else if |pages| == 1 {
      assert pages[0][|pages[0]| - 1] in pages[0];
      forall i | 0 <= i < |pages[0]|
        ensures pages[0][i] != PageBreak
      {
        assert pages[0][i] in pages[0];
      }
    }
  }

  /**
   * A story joined from well-formed pages lays out on exactly those pages, in order,
   * with one page break fewer than pages, each break followed by a spacer.
   */
  lemma {:induction false} DocumentPages(pages: seq<seq<Element>>)
    requires |pages| >= 1
    requires forall k :: 0 <= k < |pages| ==> WellFormedPage(pages[k])
    ensures SplitPages(Join(pages)) == pages
    ensures multiset(Join(pages))[PageBreak] == |pages| - 1
    ensures var story := Join(pages);
      forall i :: 0 <= i < |story| && story[i] == PageBreak ==> i + 1 < |story| && story[i + 1].Spacer?
    ensures |Join(pages)| > 0 && Join(pages)[0].Spacer? && Join(pages)[|Join(pages)| - 1] != PageBreak
  {
    SplitJoin(pages);
    BreakCount(pages);
    BreaksPrecedeSpacers(pages);
  }
}
