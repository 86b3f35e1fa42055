/**
 * The content-height estimators of the three generators. Each measures the paragraphs of
 * one record with the layout engine's wrap, adds the style spacing, pads for custom
 * fonts, leading, long text and non-ASCII text, and adds a ten percent safety margin.
 * When a measurement fails the estimate falls back to eight scaled inches.
 */
module Estimator {
  import opened Text
  import opened Scale
  import opened Fonts
  import opened Flow
  import opened Records

  /** A height the layout engine can report. */
  type Length = x: real | 0.0 <= x

  /** The outcome of wrapping one paragraph: its height, or the exception it raised. */
  datatype Measure = Measured(height: Length) | Raised

  /**
   * The layout engine's `Paragraph.wrap` at the frame width, for one document: the text
   * and the style it is drawn with determine the height.
   */
  type Wrap = (string, Role) -> Measure

  /** An estimate: the measured one, or the conservative fallback after a failed measurement. */
  datatype Estimate = Ok(height: real) | Fallback(height: real)

  /** The scaled styles of a dictionary document. */
  datatype EntryStyles = EntryStyles(
    page: Page,
    termFont: string, termSize: int, termSpacing: int,
    pronunciationFont: string, pronunciationSize: int, pronunciationSpacing: int,
    definitionFont: string, definitionSize: int,
    lineWidth: int, definitionSpaceBefore: int)

  /** The scaled style of a quote document. */
  datatype QuoteStyles = QuoteStyles(page: Page, quoteFont: string, quoteSize: int)

  /** The scaled styles of an authored-quote document. */
  datatype AuthoredStyles = AuthoredStyles(
    page: Page,
    quoteFont: string, quoteSize: int,
    authorFont: string, authorSize: int, authorSpacing: int)

  /**
   * The dictionary styles for the user's settings on page `page`: every size and spacing
   * scaled and truncated, the separator 4 and the space above the definition 54 points at
   * the baseline size.
   */
  function EntryStylesFor(page: Page, termFont: string, termSize: int, termSpacing: int,
                          pronunciationFont: string, pronunciationSize: int, pronunciationSpacing: int,
                          definitionFont: string, definitionSize: int): (st: EntryStyles)
    ensures st.page == page && st.termFont == termFont
    ensures st.pronunciationFont == pronunciationFont && st.definitionFont == definitionFont
    ensures (AdmissiblePage(page) && 0 <= termSize && 0 <= termSpacing && 0 <= pronunciationSize
             && 0 <= pronunciationSpacing && 0 <= definitionSize) ==> EntryStylesNonNegative(st)
  {
    var s := ScaleFactor(page);
    EntryStyles(page,
      termFont, Scaled(termSize as real, s), Scaled(termSpacing as real, s),
      pronunciationFont, Scaled(pronunciationSize as real, s), Scaled(pronunciationSpacing as real, s),
      definitionFont, Scaled(definitionSize as real, s),
      Scaled(4.0, s), Scaled(54.0, s))
  }

  /** The quote style for the user's settings on page `page`. */
  function QuoteStylesFor(page: Page, quoteFont: string, quoteSize: int): (st: QuoteStyles)
    ensures st.page == page && st.quoteFont == quoteFont
    ensures AdmissiblePage(page) && 0 <= quoteSize ==> QuoteStylesNonNegative(st)
  {
    QuoteStyles(page, quoteFont, Scaled(quoteSize as real, ScaleFactor(page)))
  }

  /** The authored-quote styles for the user's settings; quote and author are 24 points apart. */
  function AuthoredStylesFor(page: Page, quoteFont: string, quoteSize: int,
                             authorFont: string, authorSize: int): (st: AuthoredStyles)
    ensures st.page == page && st.quoteFont == quoteFont && st.authorFont == authorFont
    ensures AdmissiblePage(page) && 0 <= quoteSize && 0 <= authorSize ==> AuthoredStylesNonNegative(st)
  {
    var s := ScaleFactor(page);
    AuthoredStyles(page, quoteFont, Scaled(quoteSize as real, s),
                   authorFont, Scaled(authorSize as real, s), Scaled(24.0, s))
  }

  predicate EntryStylesNonNegative(st: EntryStyles) {
    && 0.0 < ScaleFactor(st.page)
    && 0 <= st.termSize && 0 <= st.termSpacing && 0 <= st.pronunciationSize
    && 0 <= st.pronunciationSpacing && 0 <= st.definitionSize
    && 0 <= st.lineWidth && 0 <= st.definitionSpaceBefore
  }

  predicate QuoteStylesNonNegative(st: QuoteStyles) {
    0.0 < ScaleFactor(st.page) && 0 <= st.quoteSize
  }

  predicate AuthoredStylesNonNegative(st: AuthoredStyles) {
    0.0 < ScaleFactor(st.page) && 0 <= st.quoteSize && 0 <= st.authorSize && 0 <= st.authorSpacing
  }

  /** At the baseline page size every style keeps the size the user chose. */
  lemma {:induction false} BaselineStylesKeepSizes(termFont: string, termSize: nat, termSpacing: nat,
                                                   pronunciationFont: string, pronunciationSize: nat,
                                                   pronunciationSpacing: nat,
                                                   definitionFont: string, definitionSize: nat)
    ensures var st := EntryStylesFor(Page(BaselineWidth, BaselineHeight), termFont, termSize, termSpacing,
                                     pronunciationFont, pronunciationSize, pronunciationSpacing,
                                     definitionFont, definitionSize);
      && st.termSize == termSize && st.termSpacing == termSpacing
      && st.pronunciationSize == pronunciationSize && st.pronunciationSpacing == pronunciationSpacing
      && st.definitionSize == definitionSize && st.lineWidth == 4 && st.definitionSpaceBefore == 54
  {
    BaselinePageKeepsSizes(termSize);
    BaselinePageKeepsSizes(termSpacing);
    BaselinePageKeepsSizes(pronunciationSize);
    BaselinePageKeepsSizes(pronunciationSpacing);
    BaselinePageKeepsSizes(definitionSize);
    BaselinePageKeepsSizes(4);
    BaselinePageKeepsSizes(54);
  }

  // ---------------------------------------------------------------------------------------
  // The padding terms shared by the three estimators

  /**
   * The estimate used when a measurement fails: eight inches at the page's scale, that is
   * 16/3 of the page margin.
   */
  function FallbackHeight(page: Page): (h: real)
    ensures AdmissiblePage(page) ==> 0.0 < h
    ensures 3.0 * h == 16.0 * Margin(page)
  {
    8.0 * ScaleFactor(page) * Inch
  }

  /** A total with its ten percent safety margin added. */
  function WithSafetyMargin(total: real): real {
    total + total * 0.10
  }

  /**
   * The long-text padding for a text of `length` characters: `max(1, length // 80)`
   * estimated lines, each padded by `int(8 * s)`, once there are more than two of them.
   */
  function LongTextPadding(length: nat, s: real): (pad: int)
    ensures pad == if 240 <= length then (length / 80) * Scaled(8.0, s) else 0
  {
    var lineCount := if length / 80 < 1 then 1 else length / 80;
    if lineCount > 2 then lineCount * Scaled(8.0, s) else 0
  }

  /** `int(6 * s)` of padding when the text holds a character beyond ASCII. */
  function NonAsciiPadding(text: string, s: real): (pad: int)
    ensures !HasNonAscii(text) ==> pad == 0
    ensures 0.0 <= s ==> 0 <= pad && pad as real <= 6.0 * s
  {
    if HasNonAscii(text) then Scaled(6.0, s) else 0
  }

  /** The scan for a character beyond ASCII, stopping at the first one. */
  method ContainsNonAscii(text: string) returns (found: bool)
    ensures found <==> HasNonAscii(text)
  {
    found := false;
    var i := 0;
    while i < |text| && !found
      invariant 0 <= i <= |text|
      invariant found ==> HasNonAscii(text)
      invariant !found ==> forall j :: 0 <= j < i ==> text[j] as int <= 127
    {
      found := text[i] as int > 127;
      i := i + 1;
    }
  }

  lemma {:induction false} LongTextPaddingMonotone(shorter: nat, longer: nat, s: real)
    requires shorter <= longer && 0.0 <= s
    ensures 0 <= LongTextPadding(shorter, s) <= LongTextPadding(longer, s)
  {
    var c := Scaled(8.0, s);
    assert 0 <= c;
    if 240 <= shorter {
      assert shorter / 80 <= longer / 80 by {
        assert 80 * (shorter / 80) <= shorter <= longer < 80 * (longer / 80) + 80;
      }
      MultiplyMonotone(shorter / 80, longer / 80, c);
    } else if 240 <= longer {
      MultiplyMonotone(0, longer / 80, c);
    }
  }

  lemma MultiplyMonotone(a: int, b: int, c: int)
    requires 0 <= a <= b && 0 <= c
    ensures 0 <= a * c <= b * c
  {
  }

  lemma {:induction false} NonAsciiPaddingExtends(text: string, extra: string, s: real)
    requires 0.0 <= s
    ensures 0 <= NonAsciiPadding(text, s) <= NonAsciiPadding(text + extra, s)
  {
    if HasNonAscii(text) {
      var i :| 0 <= i < |text| && text[i] as int > 127;
      assert (text + extra)[i] == text[i];
    }
  }

  /** Inserting text anywhere never removes the non-ASCII padding. */
  lemma {:induction false} NonAsciiPaddingInsert(before: string, extra: string, after: string, s: real)
    requires 0.0 <= s
    ensures 0 <= NonAsciiPadding(before + after, s) <= NonAsciiPadding(before + extra + after, s)
  {
    var text, longer := before + after, before + extra + after;
    if HasNonAscii(text) {
      var i :| 0 <= i < |text| && text[i] as int > 127;
      if i < |before| {
        assert longer[i] == text[i];
      } else {
        assert longer[i + |extra|] == text[i];
      }
    }
  }

  /** On pages at least a sixth of the baseline size, non-ASCII text is always padded. */
  lemma NonAsciiPaddedExactly(text: string, s: real)
    requires 1.0 / 6.0 <= s
    ensures 0 < NonAsciiPadding(text, s) <==> HasNonAscii(text)
  {
  }

  /**
   * The fallback fits inside the frame exactly when the page is at least 14/17 as tall
   * as it is wide (with the 11 by 14 baseline, the frame holds `h - 3 s` inches).
   */
  lemma FallbackFitsTallPages(page: Page)
    ensures FallbackHeight(page) <= ContentHeight(page) <==> 14.0 * page.widthIn <= 17.0 * page.heightIn
  {
  }

  // ---------------------------------------------------------------------------------------
  // Dictionary entries

  /** The text whose characters decide the non-ASCII padding of an entry. */
  function EntryText(e: Entry): string {
    e.term + " " + e.pronunciation + " " + e.definition
  }

  /** The padded total of an entry whose paragraphs measure `hTerm`, `hPron` and `hDef`. */
  function EntryTotal(e: Entry, st: EntryStyles, hTerm: real, hPron: real, hDef: real): real {
    var s := ScaleFactor(st.page);
    hTerm + st.termSpacing as real + hPron + st.pronunciationSpacing as real
      + st.lineWidth as real + st.definitionSpaceBefore as real + hDef
      + (FontPadding(st.termFont, st.termSize) + FontPadding(st.pronunciationFont, st.pronunciationSize)
         + FontPadding(st.definitionFont, st.definitionSize))
      + (Scaled(12.0, s) + Scaled(4.0, s)) as real
      + LongTextPadding(|e.definition|, s) as real
      + NonAsciiPadding(EntryText(e), s) as real
  }

  /**
   * The estimate for an entry: the term is measured lower-cased, the pronunciation with its
   * word type; any failed measurement gives the fallback.
   */
  function EntryHeight(e: Entry, st: EntryStyles, wrap: Wrap): (est: Estimate)
    ensures est.Fallback? <==>
      wrap(Lower(e.term), Term).Raised? || wrap(PronunciationText(e), Pronunciation).Raised?
      || wrap(e.definition, Definition).Raised?
    ensures est.Fallback? ==> est.height == FallbackHeight(st.page)
  {
    match (wrap(Lower(e.term), Term), wrap(PronunciationText(e), Pronunciation), wrap(e.definition, Definition))
    case (Measured(a), Measured(b), Measured(c)) => Ok(WithSafetyMargin(EntryTotal(e, st, a, b, c)))
    case _ => Fallback(FallbackHeight(st.page))
  }

  /** The dictionary estimator, accumulating its total step by step. */
  method EstimateEntryHeight(e: Entry, st: EntryStyles, wrap: Wrap) returns (est: Estimate)
    ensures est == EntryHeight(e, st, wrap)
  {
    var s := ScaleFactor(st.page);
    var term := wrap(Lower(e.term), Term);
    var pronunciation := wrap(PronunciationText(e), Pronunciation);
    var definition := wrap(e.definition, Definition);
    if term.Raised? || pronunciation.Raised? || definition.Raised? {
      return Fallback(8.0 * s * Inch);
    }
    var total := term.height + st.termSpacing as real + pronunciation.height
                 + st.pronunciationSpacing as real + st.lineWidth as real
                 + st.definitionSpaceBefore as real + definition.height;
    var fontPadding := 0.0;
    if IsCustomFontName(st.termFont) {
      fontPadding := fontPadding + st.termSize as real * 0.20;
    }
    if IsCustomFontName(st.pronunciationFont) {
      fontPadding := fontPadding + st.pronunciationSize as real * 0.20;
    }
    if IsCustomFontName(st.definitionFont) {
      fontPadding := fontPadding + st.definitionSize as real * 0.20;
    }
    assert fontPadding == FontPadding(st.termFont, st.termSize) + FontPadding(st.pronunciationFont, st.pronunciationSize)
                          + FontPadding(st.definitionFont, st.definitionSize);
    total := total + fontPadding;
    total := total + (Scaled(12.0, s) + Scaled(4.0, s)) as real;
    ghost var beforeLongText := total;
    var lineCount := |e.definition| / 80;
    if lineCount < 1 {
      lineCount := 1;
    }
    if lineCount > 2 {
      total := total + (lineCount * Scaled(8.0, s)) as real;
    }
    assert total == beforeLongText + LongTextPadding(|e.definition|, s) as real;
    ghost var beforeNonAscii := total;
    var nonAscii := ContainsNonAscii(EntryText(e));
    if nonAscii {
      total := total + Scaled(6.0, s) as real;
    }
    assert total == beforeNonAscii + NonAsciiPadding(EntryText(e), s) as real;
    assert total == EntryTotal(e, st, term.height, pronunciation.height, definition.height);
    var safetyMargin := total * 0.10;
    est := Ok(total + safetyMargin);
  }

  /**
   * A measured estimate covers at least 110% of the measured paragraphs and the style
   * spacing between them: every padding is non-negative.
   */
  lemma {:induction false} EntryEstimateCoversContent(e: Entry, st: EntryStyles, wrap: Wrap)
    requires EntryStylesNonNegative(st)
    ensures var est := EntryHeight(e, st, wrap);
      est.Ok? ==>
        est.height >= 1.1 * (wrap(Lower(e.term), Term).height + st.termSpacing as real
                             + wrap(PronunciationText(e), Pronunciation).height
                             + st.pronunciationSpacing as real + st.lineWidth as real
                             + st.definitionSpaceBefore as real + wrap(e.definition, Definition).height)
  {
    var s := ScaleFactor(st.page);
    FontPaddingBounds(st.termFont, st.termSize);
    FontPaddingBounds(st.pronunciationFont, st.pronunciationSize);
    FontPaddingBounds(st.definitionFont, st.definitionSize);
    LongTextPaddingMonotone(0, |e.definition|, s);
    NonAsciiPaddingExtends(EntryText(e), [], s);
    ScaledMonotone(12.0, s, s);
    ScaledMonotone(4.0, s, s);
  }

  /**
   * Lengthening a definition never lowers its entry's estimate, as long as the layout
   * engine measures the longer definition at least as tall.
   */
  lemma {:induction false} LongerDefinitionNeverShrinks(e: Entry, extra: string, st: EntryStyles, wrap: Wrap)
    requires EntryStylesNonNegative(st)
    requires var longer := e.(definition := e.definition + extra);
      wrap(e.definition, Definition).Measured? && wrap(longer.definition, Definition).Measured?
      && wrap(e.definition, Definition).height <= wrap(longer.definition, Definition).height
    ensures var longer := e.(definition := e.definition + extra);
      EntryHeight(e, st, wrap).Ok? == EntryHeight(longer, st, wrap).Ok?
      && EntryHeight(e, st, wrap).height <= EntryHeight(longer, st, wrap).height
  {
    var longer := e.(definition := e.definition + extra);
    var s := ScaleFactor(st.page);
    assert PronunciationText(longer) == PronunciationText(e);
    assert EntryText(longer) == EntryText(e) + extra;
    LongTextPaddingMonotone(|e.definition|, |longer.definition|, s);
    NonAsciiPaddingExtends(EntryText(e), extra, s);
  }

  // ---------------------------------------------------------------------------------------
  // Quotes

  /** The padded total of a quote whose paragraph measures `h`. */
  function QuoteTotal(quote: string, st: QuoteStyles, h: real): real {
    var s := ScaleFactor(st.page);
    h + FontPadding(st.quoteFont, st.quoteSize) + Scaled(12.0, s) as real
      + LongTextPadding(|quote|, s) as real + NonAsciiPadding(quote, s) as real
  }

  /** The estimate for a quote; a failed measurement gives the fallback. */
  function QuoteHeight(quote: string, st: QuoteStyles, wrap: Wrap): (est: Estimate)
    ensures est.Fallback? <==> wrap(quote, QuoteText).Raised?
    ensures est.Fallback? ==> est.height == FallbackHeight(st.page)
  {
    match wrap(quote, QuoteText)
    case Measured(h) => Ok(WithSafetyMargin(QuoteTotal(quote, st, h)))
    case Raised => Fallback(FallbackHeight(st.page))
  }

  /** The quote estimator, accumulating its total step by step. */
  method EstimateQuoteHeight(quote: string, st: QuoteStyles, wrap: Wrap) returns (est: Estimate)
    ensures est == QuoteHeight(quote, st, wrap)
  {
    var s := ScaleFactor(st.page);
    var measured := wrap(quote, QuoteText);
    if measured.Raised? {
      return Fallback(8.0 * s * Inch);
    }
    var quoteHeight := measured.height;
    var fontPadding := 0.0;
    if IsCustomFontName(st.quoteFont) {
      fontPadding := fontPadding + st.quoteSize as real * 0.20;
    }
    quoteHeight := quoteHeight + fontPadding;
    quoteHeight := quoteHeight + Scaled(12.0, s) as real;
    var lineCount := |quote| / 80;
    if lineCount < 1 {
      lineCount := 1;
    }
    if lineCount > 2 {
      quoteHeight := quoteHeight + (lineCount * Scaled(8.0, s)) as real;
    }
    var nonAscii := ContainsNonAscii(quote);
    if nonAscii {
      quoteHeight := quoteHeight + Scaled(6.0, s) as real;
    }
    var safetyMargin := quoteHeight * 0.10;
    est := Ok(quoteHeight + safetyMargin);
  }

  /** A measured quote estimate covers at least 110% of the measured paragraph. */
  lemma {:induction false} QuoteEstimateCoversContent(quote: string, st: QuoteStyles, wrap: Wrap)
    requires QuoteStylesNonNegative(st)
    ensures var est := QuoteHeight(quote, st, wrap);
      est.Ok? ==> est.height >= 1.1 * wrap(quote, QuoteText).height
  {
    var s := ScaleFactor(st.page);
    FontPaddingBounds(st.quoteFont, st.quoteSize);
    LongTextPaddingMonotone(0, |quote|, s);
    NonAsciiPaddingExtends(quote, [], s);
    ScaledMonotone(12.0, s, s);
  }

  /**
   * Lengthening a quote never lowers its estimate, as long as the layout engine measures
   * the longer quote at least as tall.
   */
  lemma {:induction false} LongerQuoteNeverShrinks(quote: string, extra: string, st: QuoteStyles, wrap: Wrap)
    requires QuoteStylesNonNegative(st)
    requires wrap(quote, QuoteText).Measured? && wrap(quote + extra, QuoteText).Measured?
    requires wrap(quote, QuoteText).height <= wrap(quote + extra, QuoteText).height
    ensures QuoteHeight(quote, st, wrap).Ok? && QuoteHeight(quote + extra, st, wrap).Ok?
    ensures QuoteHeight(quote, st, wrap).height <= QuoteHeight(quote + extra, st, wrap).height
  {
    var s := ScaleFactor(st.page);
    LongTextPaddingMonotone(|quote|, |quote + extra|, s);
    NonAsciiPaddingExtends(quote, extra, s);
  }

  // ---------------------------------------------------------------------------------------
  // Authored quotes

  /** The padded total of an authored quote whose paragraphs measure `hQuote` and `hAuthor`. */
  function AuthoredTotal(q: AuthoredQuote, st: AuthoredStyles, hQuote: real, hAuthor: real): real {
    var s := ScaleFactor(st.page);
    hQuote + st.authorSpacing as real + hAuthor
      + (FontPadding(st.quoteFont, st.quoteSize) + FontPadding(st.authorFont, st.authorSize))
      + (Scaled(12.0, s) + Scaled(4.0, s)) as real
      + LongTextPadding(|q.quote|, s) as real
      + NonAsciiPadding(q.quote + " " + q.author, s) as real
  }

  /** The estimate for an authored quote; a failed measurement gives the fallback. */
  function AuthoredHeight(q: AuthoredQuote, st: AuthoredStyles, wrap: Wrap): (est: Estimate)
    ensures est.Fallback? <==> wrap(q.quote, QuoteText).Raised? || wrap(q.author, Author).Raised?
    ensures est.Fallback? ==> est.height == FallbackHeight(st.page)
  {
    match (wrap(q.quote, QuoteText), wrap(q.author, Author))
    case (Measured(a), Measured(b)) => Ok(WithSafetyMargin(AuthoredTotal(q, st, a, b)))
    case _ => Fallback(FallbackHeight(st.page))
  }

  /** The authored-quote estimator, accumulating its total step by step. */
  method EstimateAuthoredHeight(q: AuthoredQuote, st: AuthoredStyles, wrap: Wrap) returns (est: Estimate)
    ensures est == AuthoredHeight(q, st, wrap)
  {
    var s := ScaleFactor(st.page);
    var quote := wrap(q.quote, QuoteText);
    var author := wrap(q.author, Author);
    if quote.Raised? || author.Raised? {
      return Fallback(8.0 * s * Inch);
    }
    var total := quote.height + st.authorSpacing as real + author.height;
    var fontPadding := 0.0;
    if IsCustomFontName(st.quoteFont) {
      fontPadding := fontPadding + st.quoteSize as real * 0.20;
    }
    if IsCustomFontName(st.authorFont) {
      fontPadding := fontPadding + st.authorSize as real * 0.20;
    }
    total := total + fontPadding;
    total := total + (Scaled(12.0, s) + Scaled(4.0, s)) as real;
    var lineCount := |q.quote| / 80;
    if lineCount < 1 {
      lineCount := 1;
    }
    if lineCount > 2 {
      total := total + (lineCount * Scaled(8.0, s)) as real;
    }
    var nonAscii := ContainsNonAscii(q.quote + " " + q.author);
    if nonAscii {
      total := total + Scaled(6.0, s) as real;
    }
    var safetyMargin := total * 0.10;
    est := Ok(total + safetyMargin);
  }

  /** A measured authored estimate covers at least 110% of both paragraphs and the gap between. */
  lemma {:induction false} AuthoredEstimateCoversContent(q: AuthoredQuote, st: AuthoredStyles, wrap: Wrap)
    requires AuthoredStylesNonNegative(st)
    ensures var est := AuthoredHeight(q, st, wrap);
      est.Ok? ==>
        est.height >= 1.1 * (wrap(q.quote, QuoteText).height + st.authorSpacing as real
                             + wrap(q.author, Author).height)
  {
    var s := ScaleFactor(st.page);
    FontPaddingBounds(st.quoteFont, st.quoteSize);
    FontPaddingBounds(st.authorFont, st.authorSize);
    LongTextPaddingMonotone(0, |q.quote|, s);
    NonAsciiPaddingExtends(q.quote + " " + q.author, [], s);
    ScaledMonotone(12.0, s, s);
    ScaledMonotone(4.0, s, s);
  }

  /**
   * Lengthening the quote of an authored quote never lowers its estimate, as long as the
   * layout engine measures the longer quote at least as tall.
   */
  lemma {:induction false} LongerAuthoredQuoteNeverShrinks(q: AuthoredQuote, extra: string, st: AuthoredStyles,
                                                           wrap: Wrap)
    requires AuthoredStylesNonNegative(st)
    requires wrap(q.quote, QuoteText).Measured? && wrap(q.quote + extra, QuoteText).Measured?
    requires wrap(q.author, Author).Measured?
    requires wrap(q.quote, QuoteText).height <= wrap(q.quote + extra, QuoteText).height
    ensures var longer := q.(quote := q.quote + extra);
      && AuthoredHeight(q, st, wrap).Ok? && AuthoredHeight(longer, st, wrap).Ok?
      && AuthoredHeight(q, st, wrap).height <= AuthoredHeight(longer, st, wrap).height
  {
    var longer := q.(quote := q.quote + extra);
    var s := ScaleFactor(st.page);
    LongTextPaddingMonotone(|q.quote|, |longer.quote|, s);
    NonAsciiPaddingInsert(q.quote, extra, " " + q.author, s);
    assert q.quote + " " + q.author == q.quote + (" " + q.author);
    assert longer.quote + " " + longer.author == q.quote + extra + (" " + q.author);
  }

  /**
   * Lengthening the author of an authored quote never lowers its estimate, as long as the
   * layout engine measures the longer author at least as tall.
   */
  lemma {:induction false} LongerAuthorNeverShrinks(q: AuthoredQuote, extra: string, st: AuthoredStyles,
                                                    wrap: Wrap)
    requires AuthoredStylesNonNegative(st)
    requires wrap(q.author, Author).Measured? && wrap(q.author + extra, Author).Measured?
    requires wrap(q.quote, QuoteText).Measured?
    requires wrap(q.author, Author).height <= wrap(q.author + extra, Author).height
    ensures var longer := q.(author := q.author + extra);
      && AuthoredHeight(q, st, wrap).Ok? && AuthoredHeight(longer, st, wrap).Ok?
      && AuthoredHeight(q, st, wrap).height <= AuthoredHeight(longer, st, wrap).height
  {
    var longer := q.(author := q.author + extra);
    var s := ScaleFactor(st.page);
    NonAsciiPaddingExtends(q.quote + " " + q.author, extra, s);
    assert longer.quote + " " + longer.author == q.quote + " " + q.author + extra;
  }
}
