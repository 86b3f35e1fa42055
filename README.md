# Poster-document layout core, modelled in Dafny

The program turns rows of a CSV upload into one-record-per-page PDF posters. There are
three document kinds:

- **dictionary entries**: term, pronunciation, type, definition;
- **quotes**: one per line;
- **authored quotes**: `quote,author` rows.

This project models the layout core behind them:

- **Scale.** Every size and margin is derived from the page size, against an 11 × 14 inch
  baseline.
- **Height estimate.** Each generator estimates the height of a record's text block. It
  measures the block with the layout engine's `Paragraph.wrap`, then pads the result.
- **Placement.** A spacer puts the block at the top, middle or bottom of the frame.
- **Story.** The generator loops build the sequence of flowables that the document splits
  into pages.

It also models the helpers those pieces use:

- the font-name choice;
- the alignment lookup;
- the hex colour parser;
- the upload validators.

Modules, one per file:

| file | module | models |
|---|---|---|
| `wrappers.dfy` | `Wrappers` | `Option` |
| `text.dfy` | `Text` | Python's `str.strip`, `str.lower`, the non-ASCII test |
| `scale.dfy` | `Scale` | scale factor, `int()` truncation, margin, frame size |
| `fonts.dfy` | `Fonts` | `register_font_safe`, the custom-font name test |
| `styles.dfy` | `Styles` | `get_alignment_constant`, `hex_to_rgb` |
| `placement.dfy` | `Placement` | the spacer functions (three identical copies, modelled once) |
| `flow.dfy` | `Flow` | flowables, how the page breaks of a story split it into pages |
| `records.dfy` | `Records` | the records each generator accepts from its rows |
| `estimator.dfy` | `Estimator` | the three height estimators |
| `assembler.dfy` | `Assembler` | the three story-building loops |
| `validation.dfy` | `Validation` | the upload validators |

How the model treats things it cannot run:

- **`Paragraph.wrap`** is the parameter `wrap: (string, Role) -> Measure`. It yields either
  a non-negative height or `Raised`, which stands for an exception.
- **Building a `Paragraph`** for the story is the parameter `parses: (string, Role) -> bool`.
  A paragraph that fails to build raises out of the generator and ends the run
  (app.py:1535-1537), so each story loop returns `None` in that case.
- **The `except` path** of each estimator becomes the `Fallback` arm of `Estimate`, whose
  height is `8 * scale * inch`.
- **Floats** are exact reals, with `inch = 72` points. `int()` is `Scale.Trunc`, which
  truncates toward zero.
- **The estimators and the story loops** accumulate step by step in the program. Each is a
  method proved equal to a specification function, and the lemmas are stated about those
  functions.

Two details of the code that the model keeps as written:

- the estimate fallback is `8 * scale_factor * inch` (app.py:220), that is `8 * scale` inches;
- blank quote lines (app.py:592-593) and authored rows with fewer than two fields or a blank
  quote (app.py:858-865) are skipped without any warning.

## Model

| member | source | states |
|---|---|---|
| `Scale.ScaleFactor` | app.py:130-136 | the scale is the mean of width/11 and height/14; it is positive on every admissible page |
| `Scale.Trunc` | app.py:139-143 | `int()` on a real: the floor for non-negative values, truncation toward zero for negative values |
| `Scale.ScaleOnBaselineRatio` | app.py:130-136 | on a page with the baseline's proportions, the scale equals both axis ratios |
| `Scale.ScaleBetweenAxisRatios` | app.py:130-136 | otherwise the scale lies strictly between the two axis ratios |
| `Scale.ScaleProportional` | app.py:130-151 | multiplying both page sides by k multiplies the scale, margin and frame width and height by k |
| `Scale.Margin` | app.py:146 | the margin is 1.5 × scale inches, and positive on every admissible page |
| `Scale.ContentWidth` | app.py:289-290 | the frame width is page width minus two margins: below the page width, and positive exactly when 33 × height < 266 × width |
| `Scale.ContentHeight` | app.py:289-290 | the frame height is page height minus two margins: below the page height, and positive exactly when 42 × width < 275 × height |
| `Scale.ScaledMonotone` | app.py:139-151 | a scaled size `int(k*s)` is non-negative and never shrinks as the scale grows |
| `Scale.BaselinePageKeepsSizes` | app.py:130-151 | on the 11 × 14 page the scale is 1, every size is kept, and the margin is 1.5 inches |
| `Scale.StandardSizesLeaveRoom` | app.py:1240-1247 | every preset page size is admissible and leaves a frame of positive width and height |
| `Scale.WidePageHasNoFrame` | app.py:1260-1262 | the custom-size bounds admit a 50 × 1 inch page, whose frame height is negative |
| `Text.Strip` | app.py:591 | `str.strip` gives the empty string exactly for blank text; otherwise the result starts and ends with a non-space and is no longer than the input (what it removes is `Text.StripRemovesSurroundingSpace`) |
| `Text.StripRemovesSurroundingSpace` | app.py:591 | `str.strip` returns a slice of its input with only whitespace before and after it |
| `Text.Lower` | app.py:363 | lower-casing keeps the length, turns each upper-case ASCII letter into its lower-case letter, leaves no upper-case ASCII letter, and keeps every other character |
| `Text.LowerIdempotent` | app.py:363 | lower-casing twice is lower-casing once |
| `Text.StripUnchanged` | app.py:591 | text without surrounding whitespace is left as it is |
| `Fonts.RegisterFontName` | app.py:63-77 | a registrable `.ttf` file that registers gets `base_<millis>`; one that fails gets Times-Bold; a built-in name is kept; any other name or a missing one gets Times-Bold; apart from the first case the result is always a built-in name |
| `Fonts.IsCustomFontName` | app.py:181-188 | a name with `_` is custom; a name of at most ten characters is custom exactly when it has a `_` or a digit; a name with neither is not custom |
| `Fonts.FontPadding` | app.py:181-188 | for a positive size, padding is positive exactly for a custom font name; it is 0 for other names and at most a fifth of the size |
| `Fonts.BuiltinFontsArePlain` | app.py:181-188 | no built-in font name passes the custom-font test |
| `Fonts.PaddedExactlyWhenRegistered` | app.py:181-188 | the chosen font gets the 20% padding if and only if it was registered from a file |
| `Fonts.FontPaddingBounds` | app.py:181-188 | font padding is between 0 and a fifth of the scaled size, and 0 for built-in fonts |
| `Styles.AlignmentConstant` | app.py:244-251 | "left", "center" and "right" map to their alignments; any other name gives the document's default |
| `Styles.AlignmentDefaults` | app.py:244-251 | an unknown alignment name gives left alignment for dictionaries (and, app.py:711, authored quotes) and centre for quotes (app.py:466); a known name gives the same alignment everywhere |
| `Styles.AlignmentRoundTrip` | app.py:459-466 | looking up an alignment's name gives that alignment back, whatever the default |
| `Styles.LStripChar` | app.py:259 | `lstrip('#')` removes a prefix made only of `#` and leaves a suffix that does not start with `#` |
| `Styles.ParseInt16` | app.py:260 | `int(_, 16)` succeeds only on non-blank text, and a two-character text reads as a value from -15 to 255 |
| `Styles.ParseInt16OfDigits` | app.py:260 | a non-empty run of hexadecimal digits of either case reads as its base-16 value |
| `Styles.HexPairValue` | app.py:260 | two hexadecimal digits of either case read as high × 16 + low |
| `Styles.HexToRgb` | app.py:257-260 | a colour parses only when at least five characters follow its `#`s, and each channel is then between -15/255 and 1 |
| `Styles.HexByteValue` | app.py:260 | the two digits written for a byte read back through `int(_, 16)` as that byte |
| `Styles.HexColorRoundTrip` | app.py:257-260 | every `#rrggbb` colour written from three bytes parses to those bytes divided by 255 (any case and any number of `#`s: `Styles.HexColorDigits`) |
| `Styles.HashesIgnored` | app.py:259 | any number of leading `#` characters leaves the colour read unchanged |
| `Styles.HexColorDigits` | app.py:257-260 | any number of `#`s followed by six hexadecimal digits of either case parses to the three pair values divided by 255 |
| `Styles.WhiteDefault` | app.py:58 | the default page colour `#FFFFFF` parses to white, (1, 1, 1) |
| `Styles.ShortColorRejected` | app.py:257-260 | a colour with at most four characters after its `#`s raises instead of parsing |
| `Placement.AtLeastZero` | app.py:231 | `max(0, x)` is the least non-negative value at or above x |
| `Placement.SpacerAmount` | app.py:222-241 | the spacer is never negative. "top" and unknown positions give 0. "middle" centres a block that fits, giving spacer + block + spacer = frame height, and gives 0 otherwise. "bottom" ends a block that fits `int(20*scale)` above the bottom margin, and gives 0 otherwise |
| `Placement.BottomWithinFreeSpace` | app.py:232-239 | the bottom spacer never exceeds the free space `max(0, frame - block)` |
| `Placement.PlacedBlockFits` | app.py:222-241 | a block that fits the frame still fits after its spacer, at every position |
| `Placement.TallerBlockSmallerSpacer` | app.py:222-241 | a taller block never gets a larger spacer |
| `Flow.JoinAppend` | app.py:347-349 | adding a record's page adds a page break before it unless it is the first |
| `Flow.SplitPages` | app.py:343-376 | splitting a story at its page breaks gives at least one page |
| `Flow.SplitPagesShape` | app.py:343-376 | the story splits into one page more than it has page breaks, and no page holds a break |
| `Flow.SplitJoin` | app.py:343-376 | splitting the story at its page breaks gives back exactly the records' pages, in order |
| `Flow.BreakCount` | app.py:343-376 | a story of N pages holds exactly N - 1 page breaks |
| `Flow.BreaksPrecedeSpacers` | app.py:343-376 | every page break is immediately followed by the next record's spacer; the story starts with a spacer and does not end with a break |
| `Flow.DocumentPages` | app.py:343-376 | all of the above together, for any non-empty list of record pages |
| `Records.QuoteTexts` | app.py:588-593 | the quotes of a file are its stripped non-blank lines: never more than the lines, none empty |
| `Records.QuoteTextsConcat` | app.py:588-593 | the quotes of two consecutive parts of a file are the quotes of each part, in order |
| `Records.QuoteOfOneLine` | app.py:591-593 | a single line gives its stripped text, or nothing when it is blank |
| `Records.QuoteTextsKeepNonBlank` | app.py:588-593 | a file without blank lines gives every line, stripped, in order |
| `Records.QuoteTextsSkipBlank` | app.py:591-593 | a file of blank lines gives no quote |
| `Records.AuthoredRecord` | app.py:858-865 | a row yields a record if and only if it has at least two fields and a non-blank first field |
| `Records.AuthoredQuotes` | app.py:855-865 | the accepted records are never more than the rows, and none has an empty quote |
| `Records.AuthoredQuotesConcat` | app.py:855-865 | the records of two consecutive parts of a file are the records of each part, in order |
| `Records.AuthoredQuotesKeepWellFormed` | app.py:855-865 | rows that all have two fields and a non-blank quote give one record each, stripped, in order |
| `Records.MalformedRowSkipped` | app.py:858-859 | a well-formed row next to a one-field row gives exactly one record |
| `Estimator.EntryStylesFor` | app.py:139-151 | the dictionary styles keep the page and fonts; non-negative settings on an admissible page give non-negative scaled sizes |
| `Estimator.QuoteStylesFor` | app.py:455-456 | the quote style keeps the page and font; a non-negative size stays non-negative |
| `Estimator.AuthoredStylesFor` | app.py:697-700 | the authored styles keep the page and fonts; non-negative sizes and the author gap stay non-negative |
| `Estimator.BaselineStylesKeepSizes` | app.py:139-151 | on the baseline page every style keeps its size; the separator is 4 points and the space above the definition is 54 |
| `Estimator.LongTextPadding` | app.py:200-203 | long-text padding applies exactly from 240 characters on, and is then `(len // 80) * int(8*scale)` |
| `Estimator.ContainsNonAscii` | app.py:207 | the character scan reports true exactly when some character is above code 127 |
| `Estimator.LongTextPaddingMonotone` | app.py:200-203 | long-text padding is non-negative and never shrinks as the text grows |
| `Estimator.NonAsciiPaddingExtends` | app.py:206-209 | non-ASCII padding is non-negative and survives appending text |
| `Estimator.NonAsciiPadding` | app.py:206-209 | text without a non-ASCII character gets no padding, and for a non-negative scale the padding is between 0 and 6 × scale |
| `Estimator.NonAsciiPaddingInsert` | app.py:206-209 | inserting text anywhere never lowers the non-ASCII padding |
| `Estimator.FallbackHeight` | app.py:220 | the fallback is 16/3 margins (8 × scale inches), positive on every admissible page |
| `Estimator.NonAsciiPaddedExactly` | app.py:206-209 | on pages with scale at least 1/6, the non-ASCII padding is positive exactly when the text has a non-ASCII character |
| `Estimator.FallbackFitsTallPages` | app.py:220 | the fallback estimate fits the frame exactly when 14 × width ≤ 17 × height |
| `Estimator.EntryHeight` | app.py:154-220 | the entry estimate is the fallback exactly when one of its three measurements raises, and the fallback height is `8*scale*inch` |
| `Estimator.EstimateEntryHeight` | app.py:154-220 | the step-by-step accumulation equals the entry estimate |
| `Estimator.EntryEstimateCoversContent` | app.py:171-214 | a measured entry estimate is at least 1.1 × (measured heights + term and pronunciation spacing + separator + space above the definition) |
| `Estimator.LongerDefinitionNeverShrinks` | app.py:200-209 | lengthening a definition that measures at least as tall never lowers the entry estimate |
| `Estimator.QuoteHeight` | app.py:471-517 | the quote estimate is the fallback exactly when the measurement raises, and is then `8*scale*inch` |
| `Estimator.EstimateQuoteHeight` | app.py:471-517 | the step-by-step accumulation equals the quote estimate |
| `Estimator.LongerQuoteNeverShrinks` | app.py:471-517 | lengthening a quote that measures at least as tall never lowers the quote estimate |
| `Estimator.QuoteEstimateCoversContent` | app.py:477-511 | a measured quote estimate is at least 1.1 × the measured height |
| `Estimator.AuthoredHeight` | app.py:716-772 | the authored estimate is the fallback exactly when either measurement raises, and is then `8*scale*inch` |
| `Estimator.EstimateAuthoredHeight` | app.py:716-772 | the step-by-step accumulation equals the authored estimate |
| `Estimator.LongerAuthoredQuoteNeverShrinks` | app.py:716-772 | lengthening the quote of an authored quote that measures at least as tall never lowers its estimate |
| `Estimator.LongerAuthorNeverShrinks` | app.py:716-772 | lengthening the author that measures at least as tall never lowers the authored estimate |
| `Estimator.AuthoredEstimateCoversContent` | app.py:722-766 | a measured authored estimate is at least 1.1 × (quote + author gap + author) |
| `Assembler.EntryPage` | app.py:350-376 | an entry's page opens with its spacer and holds no page break |
| `Assembler.AppendEntryPage` | app.py:347-376 | one loop pass succeeds exactly when the lower-cased term, "pronunciation • (type)" and definition paragraphs all build, and then appends a break unless first, then spacer, term, pronunciation, separator line and definition |
| `Assembler.BuildEntryStory` | app.py:341-376 | the dictionary loop succeeds exactly when every entry's paragraphs build, and then builds exactly the entries' pages joined by page breaks |
| `Assembler.EntryDocument` | app.py:343-376 | a dictionary story splits into one page per entry, in file order, with N - 1 breaks |
| `Assembler.EntryBlockStaysInFrame` | app.py:352-360 | an entry whose estimate fits the frame stays inside it after its spacer |
| `Assembler.QuotePage` | app.py:605-611 | a quote's page opens with its spacer and holds no page break |
| `Assembler.AppendQuotePage` | app.py:595-611 | one loop pass succeeds exactly when the quote paragraph builds, and then appends a break unless first, then the spacer and the quote |
| `Assembler.QuoteTextsContain` | app.py:587-611 | every non-blank line's stripped text is one of the quotes laid out |
| `Assembler.BuildQuoteStory` | app.py:587-611 | the quote loop succeeds exactly when every quote's paragraph builds, and then builds exactly the pages of the stripped non-blank lines, joined by page breaks |
| `Assembler.QuoteDocument` | app.py:587-611 | a quote story splits into one page per non-blank line, in file order, with N - 1 breaks |
| `Assembler.AuthoredPage` | app.py:877-890 | an authored quote's page opens with its spacer and holds no page break |
| `Assembler.AppendAuthoredPage` | app.py:867-890 | one loop pass succeeds exactly when the quote and author paragraphs build, and then appends a break unless first, then spacer, quote, author gap and author |
| `Assembler.AuthoredQuotesContain` | app.py:853-890 | every accepted row's record is one of the authored quotes laid out |
| `Assembler.BuildAuthoredStory` | app.py:853-890 | the authored loop succeeds exactly when every accepted row's paragraphs build, and then builds exactly the pages of the accepted rows, joined by page breaks |
| `Assembler.AuthoredDocument` | app.py:853-890 | an authored story splits into one page per accepted row, in file order, with N - 1 breaks |
| `Validation.Missing` | app.py:1334 | a column is reported missing exactly when it is required and absent |
| `Validation.MissingColumns` | app.py:1333-1334 | nothing is missing exactly when every required column is present |
| `Validation.SplitOnce` | app.py:1352 | `split(',', 1)` cuts at the first comma into two parts that rebuild the line; without a comma it gives the line alone |
| `Validation.WellFormedAuthoredLineMeans` | app.py:1351-1353 | a line is counted exactly when, at its first comma, the text before and the text after are both non-blank |
| `Validation.CountWherePositive` | app.py:1350-1356 | a count is positive exactly when some line qualifies |
| `Validation.ValidAuthoredCount` | app.py:1350-1356 | the validator accepts exactly when some line has a comma with non-blank text on both sides |
| `Validation.CountValidAuthoredQuotes` | app.py:1345-1354 | the counting loop over the stripped non-blank lines gives the number of well-formed lines |
| `Validation.QuotesFound` | app.py:1373 | the quote count never exceeds the number of lines |
| `Validation.QuoteCountIsPageCount` | app.py:1373 | the count the quote validator reports is the number of pages the quote generator lays out |
| `Validation.EmptyAuthorDisagreement` | app.py:1350-1354 | the generator lays out a row with an empty author, but the validator does not count the line `quote,` |

## Left out

- The Streamlit interface is not modelled: sidebar, buttons, session state, progress and downloads.
- ReportLab drawing is not modelled: `LineFlowable.draw`, the coloured page template and `doc.build`. `doc.build` (app.py:378, 613, 892) wraps every `Paragraph` again outside the estimators' `try`, so a measurement failure that repeats there still ends the run (app.py:1535) even though the estimate fell back; the model's story methods stop before that point. Text colours, alignment and leading are style attributes the model does not attach to `Para`.
- The line flowable's colour and fixed height of 6 points are left out, and so is the width 1 of every `Spacer`.
- A record taller than the frame would overflow onto extra pages. Pagination is modelled only through explicit page breaks.
- Font registration with `pdfmetrics.registerFont` is a foreign call, so it is the boolean `registers`. The file-existence check is `fileExists` and the clock is `millis`.
- The Segoe UI probing that swaps Helvetica for a timestamped Unicode font is left out. It is filesystem and clock dependent. The estimators take the final font names as given.
- Why a `Paragraph` fails to build (its mini-markup parser) is not modelled: `parses` only says whether it builds. The error message shown when the run ends is left out.
- Floating-point rounding is left out: every float computation is an exact real.
- CSV tokenisation is left out: pandas, `csv.DictReader` and `csv.reader`. Rows arrive already split into fields, and dictionary rows arrive as `Entry` values.
- Missing dictionary fields (`None` values) are not modelled, and neither is the UTF-8 byte-order mark.
- Decoding failures of an upload are not modelled.
- `splitlines()` in the validators also breaks at a few control characters that iterating over the file does not. The model gives both the same list of lines.
- `Text.Lower`: does not model Unicode case mapping; only ASCII letters are lowered, because full case tables are outside the model.
- `Fonts.IsCustomFontName`: counts only ASCII digits as digits, whereas Python's `isdigit` also accepts other Unicode digits.
- `Styles.HexToRgb`: does not accept non-ASCII digits, which Python's `int(_, 16)` also takes. Underscore separators cannot occur in a two-character slice that parses.
- `Estimator.NonAsciiPaddedExactly`: requires scale ≥ 1/6. Below that, `int(6*scale)` is 0, so the padding is 0 even for non-ASCII text.
- The warnings shown on a measurement failure or a failed font registration are left out, and so are the success and error messages of the validators.
