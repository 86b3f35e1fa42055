/**
 * The checks run on an uploaded file before any document is generated: the dictionary's
 * required columns, the count of well-formed `quote,author` lines, and the quote count.
 */
module Validation {
  import opened Wrappers
  import opened Text
  import opened Scale
  import opened Flow
  import opened Records
  import opened Estimator
  import opened Assembler

  /** The columns a dictionary file must have. */
  const RequiredColumns: seq<string> := ["term", "pronunciation", "type", "definition"]

  /** The members of `required` absent from `columns`, in the order of `required`. */
  function Missing(required: seq<string>, columns: seq<string>): (missing: seq<string>)
    ensures |missing| <= |required|
    ensures forall c :: c in missing <==> c in required && c !in columns
  {
    if required == [] then []
    else
      var rest := Missing(required[..|required| - 1], columns);
      var c := required[|required| - 1];
      assert required == required[..|required| - 1] + [c];
      if c in columns then rest else rest + [c]
  }

  /** The required columns a dictionary file lacks; the file is accepted when there are none. */
  function MissingColumns(columns: seq<string>): (missing: seq<string>)
    ensures missing == [] <==> forall c :: c in RequiredColumns ==> c in columns
    ensures forall c :: c in missing ==> c in RequiredColumns && c !in columns
  {
    var missing := Missing(RequiredColumns, columns);
    assert missing != [] ==> missing[0] in missing;
    missing
  }

  /** The index of the first `sep` in `s`, or `|s|` when there is none. */
  function FirstIndex(s: string, sep: char): (k: nat)
    ensures k <= |s|
    ensures forall j :: 0 <= j < k ==> s[j] != sep
    ensures k < |s| ==> s[k] == sep
  {
    if s == [] then 0
    else if s[0] == sep then 0
    else 1 + FirstIndex(s[1..], sep)
  }

  /** Python's `s.split(sep, 1)`: cut at the first separator, or `[s]` when there is none. */
  function SplitOnce(s: string, sep: char): (parts: seq<string>)
    ensures sep in s ==> |parts| == 2 && parts[0] + [sep] + parts[1] == s && sep !in parts[0]
    ensures sep !in s ==> parts == [s]
  {
    var k := FirstIndex(s, sep);
    if k == |s| then [s]
    else
      assert s[..k] + [sep] + s[k + 1..] == s;
      [s[..k], s[k + 1..]]
  }

  /** A line the validator counts: a comma, a non-blank quote before it and a non-blank author after it. */
  predicate WellFormedAuthoredLine(line: string) {
    && ',' in line
    && var parts := SplitOnce(line, ',');
       |parts| == 2 && Strip(parts[0]) != "" && Strip(parts[1]) != ""
  }

  /**
   * A line is counted exactly when it has a comma whose text before it (up to the first
   * comma) and after it are both non-blank.
   */
  lemma WellFormedAuthoredLineMeans(line: string)
    ensures WellFormedAuthoredLine(line) <==>
      exists k :: 0 <= k < |line| && line[k] == ',' && ',' !in line[..k]
                  && !IsBlank(line[..k]) && !IsBlank(line[k + 1..])
  {
    var k := FirstIndex(line, ',');
    if k < |line| {
      assert ',' in line;
      var parts := SplitOnce(line, ',');
      assert parts == [line[..k], line[k + 1..]];
    } else {
      assert ',' !in line;
    }
  }

  /** How many of `lines` satisfy `valid`. */
  function CountWhere(lines: seq<string>, valid: string -> bool): (n: nat)
    ensures n <= |lines|
  {
    if lines == [] then 0
    else CountWhere(lines[..|lines| - 1], valid) + if valid(lines[|lines| - 1]) then 1 else 0
  }

  /** A count is positive exactly when some line satisfies the condition. */
  lemma {:induction false} CountWherePositive(lines: seq<string>, valid: string -> bool)
    ensures CountWhere(lines, valid) > 0 <==> exists i :: 0 <= i < |lines| && valid(lines[i])
  {
    if lines != [] {
      var init, last := lines[..|lines| - 1], lines[|lines| - 1];
      CountWherePositive(init, valid);
      if !valid(last) && CountWhere(init, valid) > 0 {
        var i :| 0 <= i < |init| && valid(init[i]);
        assert lines[i] == init[i];
      } else if !valid(last) {
        forall i | 0 <= i < |lines|
          ensures !valid(lines[i])
        {
          if i < |init| {
            assert lines[i] == init[i];
          }
        }
      }
    }
  }

  /** How many of `lines` the validator counts. */
  function ValidAuthoredCount(lines: seq<string>): (n: nat)
    ensures n <= |lines|
    ensures n > 0 <==> exists i :: 0 <= i < |lines| && WellFormedAuthoredLine(lines[i])
  {
    CountWherePositive(lines, WellFormedAuthoredLine);
    CountWhere(lines, WellFormedAuthoredLine)
  }

  lemma ValidCountStep(lines: seq<string>, i: nat)
    requires i < |lines|
    ensures CountWhere(lines[..i + 1], WellFormedAuthoredLine)
            == CountWhere(lines[..i], WellFormedAuthoredLine) + if WellFormedAuthoredLine(lines[i]) then 1 else 0
  {
    assert lines[..i + 1][..i] == lines[..i];
  }

  /**
   * The authored-quote validator: the non-blank lines of the file, stripped, and among
   * them the count of well-formed `quote,author` lines. The file is accepted when the
   * count is positive.
   */
  method CountValidAuthoredQuotes(fileLines: seq<string>) returns (validQuotes: nat)
    ensures validQuotes == ValidAuthoredCount(QuoteTexts(fileLines))
  {
    var lines := QuoteTexts(fileLines);
    validQuotes := 0;
    var i := 0;
    while i < |lines|
      invariant 0 <= i <= |lines|
      invariant validQuotes == CountWhere(lines[..i], WellFormedAuthoredLine)
    {
      var line := lines[i];
      ValidCountStep(lines, i);
      if ',' in line {
        var parts := SplitOnce(line, ',');
        if |parts| == 2 && Strip(parts[0]) != "" && Strip(parts[1]) != "" {
          validQuotes := validQuotes + 1;
        }
      }
      i := i + 1;
    }
    assert lines[..i] == lines;
  }

  /** The quote validator's count: the non-blank lines among the lines of the file. */
  function QuotesFound(fileLines: seq<string>): (n: nat)
    ensures n <= |fileLines|
  {
    |QuoteTexts(fileLines)|
  }

  /**
   * The count the quote validator reports is the number of pages the quote generator
   * lays out for the same lines.
   */
  lemma QuoteCountIsPageCount(lines: seq<string>, st: QuoteStyles, position: string, wrap: Wrap)
    requires QuotesFound(lines) > 0
    ensures |SplitPages(Join(QuotePages(QuoteTexts(lines), st, position, wrap)))| == QuotesFound(lines)
  {
    QuoteDocument(lines, st, position, wrap);
  }

  /**
   * The authored-quote generator and its validator disagree on rows without an author:
   * the generator lays out the row `[q, ""]` (what the line `q,` reads as) on a page of
   * its own, while the validator does not count the line `q,`.
   */
  lemma {:induction false} EmptyAuthorDisagreement(q: string)
    requires ',' !in q && Strip(q) != ""
    ensures AuthoredRecord([q, ""]) == Some(AuthoredQuote(Strip(q), ""))
    ensures !WellFormedAuthoredLine(q + ",")
  {
    assert Strip("") == "";
    var line := q + ",";
    forall j | 0 <= j < |q|
      ensures line[j] != ','
    {
      assert line[j] == q[j] && q[j] in q;
    }
    assert line[|q|] == ',';
    assert FirstIndex(line, ',') == |q|;
    assert line[..|q|] == q;
    assert line[|q| + 1..] == [];
  }
}
