/**
 * The story-building loops of the three generators: one page per accepted record, a page
 * break before every page but the first, and on each page the placement spacer followed
 * by the record's paragraphs.
 */
module Assembler {
  import opened Wrappers
  import opened Text
  import opened Scale
  import opened Placement
  import opened Flow
  import opened Records
  import opened Estimator

  /**
   * Whether building a `Paragraph` from the text in the role's style succeeds. The layout
   * engine parses the text as markup when the paragraph is built and raises on markup it
   * rejects; the story loops build their paragraphs outside any handler, so a rejection
   * there ends the whole generation.
   */
  type Parses = (string, Role) -> bool

  /** The spacer that places a block of estimate `est` at `position` on page `page`. */
  function PlacementSpacer(page: Page, position: string, est: Estimate): real {
    SpacerAmount(position, PageHeightPt(page), Margin(page), est.height, ScaleFactor(page))
  }

  // ---------------------------------------------------------------------------------------
  // Dictionary

  /** One entry's page: spacer, lower-cased term, pronunciation with type, separator, definition. */
  function EntryPage(e: Entry, st: EntryStyles, position: string, wrap: Wrap): (page: seq<Element>)
    ensures WellFormedPage(page)
  {
    [Spacer(PlacementSpacer(st.page, position, EntryHeight(e, st, wrap))),
     Para(Lower(e.term), Term),
     Para(PronunciationText(e), Pronunciation),
     Line(ContentWidth(st.page), st.lineWidth),
     Para(e.definition, Definition)]
  }

  function EntryPages(entries: seq<Entry>, st: EntryStyles, position: string, wrap: Wrap): (pages: seq<seq<Element>>)
    ensures |pages| == |entries|
  {
    seq(|entries|, k requires 0 <= k < |entries| => EntryPage(entries[k], st, position, wrap))
  }

  /** The three paragraphs of an entry's page all build. */
  predicate EntryParses(e: Entry, parses: Parses) {
    parses(Lower(e.term), Term) && parses(PronunciationText(e), Pronunciation) && parses(e.definition, Definition)
  }

  /**
   * One pass of the dictionary loop's body: a page break unless this is the first page,
   * then the entry's spacer, term, pronunciation, separator and definition. `None` when
   * one of the paragraphs fails to build.
   */
  method AppendEntryPage(story: seq<Element>, firstPage: bool, e: Entry, st: EntryStyles, position: string,
                         wrap: Wrap, parses: Parses) returns (next: Option<seq<Element>>)
    ensures next.Some? <==> EntryParses(e, parses)
    ensures next.Some? ==>
      next.value == (if firstPage then story else story + [PageBreak]) + EntryPage(e, st, position, wrap)
  {
    var page := story;
    if !firstPage {
      page := page + [PageBreak];
    }
    var contentHeight := EstimateEntryHeight(e, st, wrap);
    var spacerAmount := SpacerAmount(position, PageHeightPt(st.page), Margin(st.page),
                                     contentHeight.height, ScaleFactor(st.page));
    page := page + [Spacer(spacerAmount)];
    if !parses(Lower(e.term), Term) {
      return None;
    }
    page := page + [Para(Lower(e.term), Term)];
    if !parses(PronunciationText(e), Pronunciation) {
      return None;
    }
    page := page + [Para(PronunciationText(e), Pronunciation)];
    page := page + [Line(ContentWidth(st.page), st.lineWidth)];
    if !parses(e.definition, Definition) {
      return None;
    }
    page := page + [Para(e.definition, Definition)];
    next := Some(page);
  }

  /**
   * The dictionary generator's loop over the rows of the file: the story of every entry's
   * page, or `None` when some entry's paragraph fails to build and the run ends.
   */
  method BuildEntryStory(entries: seq<Entry>, st: EntryStyles, position: string, wrap: Wrap, parses: Parses)
    returns (story: Option<seq<Element>>)
    ensures story.Some? <==> forall e :: e in entries ==> EntryParses(e, parses)
    ensures story.Some? ==> story.value == Join(EntryPages(entries, st, position, wrap))
  {
    var built: seq<Element> := [];
    var firstPage := true;
    var i := 0;
    while i < |entries|
      invariant 0 <= i <= |entries|
      invariant firstPage <==> i == 0
      invariant forall e :: e in entries[..i] ==> EntryParses(e, parses)
      invariant built == Join(EntryPages(entries[..i], st, position, wrap))
    {
      var next := AppendEntryPage(built, firstPage, entries[i], st, position, wrap, parses);
      if next.None? {
        assert entries[i] in entries;
        return None;
      }
      EntryPagesAppend(entries, i, st, position, wrap);
      built := next.value;
      firstPage := false;
      assert entries[..i + 1] == entries[..i] + [entries[i]];
      i := i + 1;
    }
    assert entries[..i] == entries;
    story := Some(built);
  }

  lemma EntryPagesAppend(entries: seq<Entry>, i: nat, st: EntryStyles, position: string, wrap: Wrap)
    requires i < |entries|
    ensures var pages := EntryPages(entries[..i], st, position, wrap);
      Join(EntryPages(entries[..i + 1], st, position, wrap))
      == (if i == 0 then [] else Join(pages) + [PageBreak]) + EntryPage(entries[i], st, position, wrap)
  {
    var pages := EntryPages(entries[..i], st, position, wrap);
    assert EntryPages(entries[..i + 1], st, position, wrap) == pages + [EntryPage(entries[i], st, position, wrap)];
    JoinAppend(pages, EntryPage(entries[i], st, position, wrap));
  }

  /**
   * A dictionary document lays out on one page per entry, in file order (page `k` is
   * `EntryPage(entries[k], ...)`), with one page break fewer than entries.
   */
  lemma EntryDocument(entries: seq<Entry>, st: EntryStyles, position: string, wrap: Wrap)
    requires |entries| >= 1
    ensures var pages := EntryPages(entries, st, position, wrap);
      && SplitPages(Join(pages)) == pages
      && multiset(Join(pages))[PageBreak] == |entries| - 1
  {
    DocumentPages(EntryPages(entries, st, position, wrap));
  }

  // ---------------------------------------------------------------------------------------
  // Quotes

  /** One quote's page: spacer and the quote itself, without quotation marks. */
  function QuotePage(quote: string, st: QuoteStyles, position: string, wrap: Wrap): (page: seq<Element>)
    ensures WellFormedPage(page)
  {
    [Spacer(PlacementSpacer(st.page, position, QuoteHeight(quote, st, wrap))), Para(quote, QuoteText)]
  }

  function QuotePages(quotes: seq<string>, st: QuoteStyles, position: string, wrap: Wrap): (pages: seq<seq<Element>>)
    ensures |pages| == |quotes|
  {
    seq(|quotes|, k requires 0 <= k < |quotes| => QuotePage(quotes[k], st, position, wrap))
  }

  /**
   * One pass of the quote loop's body for a non-blank line: a page break unless first, then
   * the page. `None` when the quote's paragraph fails to build.
   */
  method AppendQuotePage(story: seq<Element>, firstPage: bool, quoteText: string, st: QuoteStyles,
                         position: string, wrap: Wrap, parses: Parses) returns (next: Option<seq<Element>>)
    ensures next.Some? <==> parses(quoteText, QuoteText)
    ensures next.Some? ==>
      next.value == (if firstPage then story else story + [PageBreak]) + QuotePage(quoteText, st, position, wrap)
  {
    var page := story;
    if !firstPage {
      page := page + [PageBreak];
    }
    var contentHeight := EstimateQuoteHeight(quoteText, st, wrap);
    var spacerAmount := SpacerAmount(position, PageHeightPt(st.page), Margin(st.page),
                                     contentHeight.height, ScaleFactor(st.page));
    page := page + [Spacer(spacerAmount)];
    if !parses(quoteText, QuoteText) {
      return None;
    }
    page := page + [Para(quoteText, QuoteText)];
    next := Some(page);
  }

  /**
   * The quote generator's loop over the lines of the file, skipping blank lines: the story
   * of every quote's page, or `None` when some quote fails to build and the run ends.
   */
  method BuildQuoteStory(lines: seq<string>, st: QuoteStyles, position: string, wrap: Wrap, parses: Parses)
    returns (story: Option<seq<Element>>)
    ensures story.Some? <==> forall q :: q in QuoteTexts(lines) ==> parses(q, QuoteText)
    ensures story.Some? ==> story.value == Join(QuotePages(QuoteTexts(lines), st, position, wrap))
  {
    var built: seq<Element> := [];
    var firstPage := true;
    ghost var quotes: seq<string> := [];
    var i := 0;
    while i < |lines|
      invariant 0 <= i <= |lines|
      invariant quotes == QuoteTexts(lines[..i])
      invariant firstPage <==> quotes == []
      invariant forall q :: q in quotes ==> parses(q, QuoteText)
      invariant built == Join(QuotePages(quotes, st, position, wrap))
    {
      var quoteText := Strip(lines[i]);
      QuoteTextsStep(lines, i);
      if quoteText == "" {
        i := i + 1;
        continue;
      }
      var next := AppendQuotePage(built, firstPage, quoteText, st, position, wrap, parses);
      if next.None? {
        QuoteTextsContain(lines, i);
        return None;
      }
      built := next.value;
      firstPage := false;
      QuotePagesAppend(quotes, quoteText, st, position, wrap);
      quotes := quotes + [quoteText];
      i := i + 1;
    }
    assert lines[..i] == lines;
    story := Some(built);
  }

  /** Every non-blank line of a file contributes its stripped text to the file's quotes. */
  lemma {:induction false} QuoteTextsContain(lines: seq<string>, i: nat)
    requires i < |lines| && Strip(lines[i]) != ""
    ensures Strip(lines[i]) in QuoteTexts(lines)
    decreases |lines|
  {
    var init := lines[..|lines| - 1];
    if i < |lines| - 1 {
      assert init[i] == lines[i];
      QuoteTextsContain(init, i);
    }
  }

  lemma QuoteTextsStep(lines: seq<string>, i: nat)
    requires i < |lines|
    ensures Strip(lines[i]) == "" ==> QuoteTexts(lines[..i + 1]) == QuoteTexts(lines[..i])
    ensures Strip(lines[i]) != "" ==> QuoteTexts(lines[..i + 1]) == QuoteTexts(lines[..i]) + [Strip(lines[i])]
  {
    assert lines[..i + 1][..i] == lines[..i];
    assert QuoteTexts(lines[..i]) + [] == QuoteTexts(lines[..i]);
  }

  lemma QuotePagesAppend(done: seq<string>, quote: string, st: QuoteStyles, position: string, wrap: Wrap)
    ensures var pages := QuotePages(done, st, position, wrap);
      Join(QuotePages(done + [quote], st, position, wrap))
      == (if done == [] then [] else Join(pages) + [PageBreak]) + QuotePage(quote, st, position, wrap)
  {
    var pages := QuotePages(done, st, position, wrap);
    assert QuotePages(done + [quote], st, position, wrap) == pages + [QuotePage(quote, st, position, wrap)];
    JoinAppend(pages, QuotePage(quote, st, position, wrap));
  }

  /**
   * A quote document lays out on one page per non-blank line, in file order, each page
   * showing its line stripped, with one page break fewer than pages.
   */
  lemma QuoteDocument(lines: seq<string>, st: QuoteStyles, position: string, wrap: Wrap)
    requires QuoteTexts(lines) != []
    ensures var pages := QuotePages(QuoteTexts(lines), st, position, wrap);
      && SplitPages(Join(pages)) == pages
      && multiset(Join(pages))[PageBreak] == |QuoteTexts(lines)| - 1
  {
    DocumentPages(QuotePages(QuoteTexts(lines), st, position, wrap));
  }

  // ---------------------------------------------------------------------------------------
  // Authored quotes

  /** One authored quote's page: spacer, quote, the gap above the author, and the author. */
  function AuthoredPage(q: AuthoredQuote, st: AuthoredStyles, position: string, wrap: Wrap): (page: seq<Element>)
    ensures WellFormedPage(page)
  {
    [Spacer(PlacementSpacer(st.page, position, AuthoredHeight(q, st, wrap))),
     Para(q.quote, QuoteText),
     Spacer(st.authorSpacing as real),
     Para(q.author, Author)]
  }

  function AuthoredPages(quotes: seq<AuthoredQuote>, st: AuthoredStyles, position: string, wrap: Wrap)
    : (pages: seq<seq<Element>>)
    ensures |pages| == |quotes|
  {
    seq(|quotes|, k requires 0 <= k < |quotes| => AuthoredPage(quotes[k], st, position, wrap))
  }

  /** Both paragraphs of an authored quote's page build. */
  predicate AuthoredParses(q: AuthoredQuote, parses: Parses) {
    parses(q.quote, QuoteText) && parses(q.author, Author)
  }

  /**
   * One pass of the authored loop's body for an accepted row: a page break unless first,
   * then the page. `None` when the quote's or the author's paragraph fails to build.
   */
  method AppendAuthoredPage(story: seq<Element>, firstPage: bool, q: AuthoredQuote, st: AuthoredStyles,
                            position: string, wrap: Wrap, parses: Parses) returns (next: Option<seq<Element>>)
    ensures next.Some? <==> AuthoredParses(q, parses)
    ensures next.Some? ==>
      next.value == (if firstPage then story else story + [PageBreak]) + AuthoredPage(q, st, position, wrap)
  {
    var page := story;
    if !firstPage {
      page := page + [PageBreak];
    }
    var contentHeight := EstimateAuthoredHeight(q, st, wrap);
    var spacerAmount := SpacerAmount(position, PageHeightPt(st.page), Margin(st.page),
                                     contentHeight.height, ScaleFactor(st.page));
    page := page + [Spacer(spacerAmount)];
    if !parses(q.quote, QuoteText) {
      return None;
    }
    page := page + [Para(q.quote, QuoteText)];
    page := page + [Spacer(st.authorSpacing as real)];
    if !parses(q.author, Author) {
      return None;
    }
    page := page + [Para(q.author, Author)];
    next := Some(page);
  }

  /**
   * The authored-quote generator's loop over the rows of the file, skipping rows with
   * fewer than two fields and rows whose quote is blank: the story of every accepted row's
   * page, or `None` when some accepted row fails to build and the run ends.
   */
  method BuildAuthoredStory(rows: seq<seq<string>>, st: AuthoredStyles, position: string, wrap: Wrap,
                            parses: Parses)
    returns (story: Option<seq<Element>>)
    ensures story.Some? <==> forall q :: q in AuthoredQuotes(rows) ==> AuthoredParses(q, parses)
    ensures story.Some? ==> story.value == Join(AuthoredPages(AuthoredQuotes(rows), st, position, wrap))
  {
    var built: seq<Element> := [];
    var firstPage := true;
    ghost var quotes: seq<AuthoredQuote> := [];
    var i := 0;
    while i < |rows|
      invariant 0 <= i <= |rows|
      invariant quotes == AuthoredQuotes(rows[..i])
      invariant firstPage <==> quotes == []
      invariant forall q :: q in quotes ==> AuthoredParses(q, parses)
      invariant built == Join(AuthoredPages(quotes, st, position, wrap))
    {
      AuthoredQuotesStep(rows, i);
      var row := rows[i];
      if |row| < 2 {
        assert RecordOf(row) == [];
        assert quotes + [] == quotes;
        i := i + 1;
        continue;
      }
      var quoteText := Strip(row[0]);
      var authorText := Strip(row[1]);
      if quoteText == "" {
        assert RecordOf(row) == [];
        assert quotes + [] == quotes;
        i := i + 1;
        continue;
      }
      var q := AuthoredQuote(quoteText, authorText);
      assert RecordOf(row) == [q];
      var next := AppendAuthoredPage(built, firstPage, q, st, position, wrap, parses);
      if next.None? {
        AuthoredQuotesContain(rows, i);
        return None;
      }
      built := next.value;
      firstPage := false;
      AuthoredPagesAppend(quotes, q, st, position, wrap);
      quotes := quotes + [q];
      i := i + 1;
    }
    assert rows[..i] == rows;
    story := Some(built);
  }

  /** Every accepted row of a file contributes its record to the file's records. */
  lemma {:induction false} AuthoredQuotesContain(rows: seq<seq<string>>, i: nat)
    requires i < |rows| && AuthoredRecord(rows[i]).Some?
    ensures AuthoredRecord(rows[i]).value in AuthoredQuotes(rows)
    decreases |rows|
  {
    var init := rows[..|rows| - 1];
    if i < |rows| - 1 {
      assert init[i] == rows[i];
      AuthoredQuotesContain(init, i);
    }
  }

  lemma AuthoredQuotesStep(rows: seq<seq<string>>, i: nat)
    requires i < |rows|
    ensures AuthoredQuotes(rows[..i + 1]) == AuthoredQuotes(rows[..i]) + RecordOf(rows[i])
  {
    assert rows[..i + 1][..i] == rows[..i];
  }

  lemma AuthoredPagesAppend(done: seq<AuthoredQuote>, q: AuthoredQuote, st: AuthoredStyles, position: string,
                            wrap: Wrap)
    ensures var pages := AuthoredPages(done, st, position, wrap);
      Join(AuthoredPages(done + [q], st, position, wrap))
      == (if done == [] then [] else Join(pages) + [PageBreak]) + AuthoredPage(q, st, position, wrap)
  {
    var pages := AuthoredPages(done, st, position, wrap);
    assert AuthoredPages(done + [q], st, position, wrap) == pages + [AuthoredPage(q, st, position, wrap)];
    JoinAppend(pages, AuthoredPage(q, st, position, wrap));
  }

  /**
   * An authored-quote document lays out on one page per accepted row, in file order,
   * with one page break fewer than pages.
   */
  lemma AuthoredDocument(rows: seq<seq<string>>, st: AuthoredStyles, position: string, wrap: Wrap)
    requires AuthoredQuotes(rows) != []
    ensures var pages := AuthoredPages(AuthoredQuotes(rows), st, position, wrap);
      && SplitPages(Join(pages)) == pages
      && multiset(Join(pages))[PageBreak] == |AuthoredQuotes(rows)| - 1
  {
    DocumentPages(AuthoredPages(AuthoredQuotes(rows), st, position, wrap));
  }

  // ---------------------------------------------------------------------------------------
  // Placement of a page's block

  /**
   * When an entry's estimate is non-negative and fits the frame, its spacer and the
   * estimated block together stay inside the frame, whatever the position.
   */
  lemma EntryBlockStaysInFrame(e: Entry, st: EntryStyles, position: string, wrap: Wrap)
    requires 0.0 < ScaleFactor(st.page)
    requires 0.0 <= EntryHeight(e, st, wrap).height <= ContentHeight(st.page)
    ensures EntryPage(e, st, position, wrap)[0].height + EntryHeight(e, st, wrap).height
            <= ContentHeight(st.page)
  {
    PlacedBlockFits(position, PageHeightPt(st.page), Margin(st.page), EntryHeight(e, st, wrap).height,
                    ScaleFactor(st.page));
  }
}
