/**
 * The records of the three document kinds and the filtering each generator applies to
 * its rows before laying them out.
 */
module Records {
  import opened Wrappers
  import opened Text

  /** A dictionary row: the `term`, `pronunciation`, `type` and `definition` columns. */
  datatype Entry = Entry(term: string, pronunciation: string, kind: string, definition: string)

  /** An accepted authored-quote row: stripped quote and stripped author. */
  datatype AuthoredQuote = AuthoredQuote(quote: string, author: string)

  /** The pronunciation paragraph of an entry: `f"{pronunciation} • ({type})"`. */
  function PronunciationText(e: Entry): string {
    e.pronunciation + " \U{2022} (" + e.kind + ")"
  }

  /**
   * The quotes of a quote file, one per line: each line stripped, blank lines skipped,
   * in file order.
   */
  function QuoteTexts(lines: seq<string>): (quotes: seq<string>)
    ensures |quotes| <= |lines|
    ensures forall k :: 0 <= k < |quotes| ==> quotes[k] != ""
  {
    if lines == [] then [] else QuoteTexts(lines[..|lines| - 1]) + QuoteOf(lines[|lines| - 1])
  }

  /** What one line contributes to the quotes: its stripped text unless it is blank. */
  function QuoteOf(line: string): (q: seq<string>)
    ensures |q| <= 1
    ensures forall k :: 0 <= k < |q| ==> q[k] != ""
  {
    var text := Strip(line);
    if text == "" then [] else [text]
  }

  /** The quotes of a file are those of its first part followed by those of the rest. */
  lemma {:induction false} QuoteTextsConcat(a: seq<string>, b: seq<string>)
    ensures QuoteTexts(a + b) == QuoteTexts(a) + QuoteTexts(b)
    decreases |b|
  {
    if b == [] {
      assert a + b == a;
    } else {
      var init, last := b[..|b| - 1], b[|b| - 1];
      assert (a + b)[..|a + b| - 1] == a + init;
      assert (a + b)[|a + b| - 1] == last;
      calc {
        QuoteTexts(a + b);
        QuoteTexts(a + init) + QuoteOf(last);
        { QuoteTextsConcat(a, init); }
        QuoteTexts(a) + QuoteTexts(init) + QuoteOf(last);
        QuoteTexts(a) + QuoteTexts(b);
      }
    }
  }

  /** A single line yields its stripped text, or nothing when it is blank. */
  lemma QuoteOfOneLine(line: string)
    ensures QuoteTexts([line]) == if IsBlank(line) then [] else [Strip(line)]
  {
    assert [line][..0] == [];
  }

  /** A file without blank lines yields every line, stripped, in order. */
  lemma {:induction false} QuoteTextsKeepNonBlank(lines: seq<string>)
    requires forall i :: 0 <= i < |lines| ==> Strip(lines[i]) != ""
    ensures |QuoteTexts(lines)| == |lines|
    ensures forall i :: 0 <= i < |lines| ==> QuoteTexts(lines)[i] == Strip(lines[i])
  {
    if lines != [] {
      var init, last := lines[..|lines| - 1], lines[|lines| - 1];
      QuoteTextsKeepNonBlank(init);
      assert QuoteOf(last) == [Strip(last)];
      var result := QuoteTexts(init) + [Strip(last)];
      assert QuoteTexts(lines) == result;
      forall i | 0 <= i < |lines|
        ensures result[i] == Strip(lines[i])
      {
        if i < |init| {
          assert lines[i] == init[i];
        }
      }
    }
  }

  /** A file of blank lines yields no quote. */
  lemma {:induction false} QuoteTextsSkipBlank(lines: seq<string>)
    requires forall i :: 0 <= i < |lines| ==> IsBlank(lines[i])
    ensures QuoteTexts(lines) == []
  {
    if lines != [] {
      QuoteTextsSkipBlank(lines[..|lines| - 1]);
    }
  }

  /**
   * The record of one authored-quote row: rows with fewer than two fields, or whose first
   * field is blank, are skipped; the author may be empty; fields past the second are ignored.
   */
  function AuthoredRecord(row: seq<string>): (r: Option<AuthoredQuote>)
    ensures r.Some? <==> 2 <= |row| && !IsBlank(row[0])
  {
    if |row| < 2 then None
    else
      var quote := Strip(row[0]);
      if quote == "" then None else Some(AuthoredQuote(quote, Strip(row[1])))
  }

  /** The accepted records of an authored-quote file, in file order. */
  function AuthoredQuotes(rows: seq<seq<string>>): (quotes: seq<AuthoredQuote>)
    ensures |quotes| <= |rows|
    ensures forall k :: 0 <= k < |quotes| ==> quotes[k].quote != ""
  {
    if rows == [] then [] else AuthoredQuotes(rows[..|rows| - 1]) + RecordOf(rows[|rows| - 1])
  }

  /** What one row contributes to the records: its record, if it has one. */
  function RecordOf(row: seq<string>): (q: seq<AuthoredQuote>)
    ensures |q| <= 1
    ensures forall k :: 0 <= k < |q| ==> q[k].quote != ""
  {
    var r := AuthoredRecord(row);
    if r.None? then [] else [r.value]
  }

  /** The records of a file are those of its first part followed by those of the rest. */
  lemma {:induction false} AuthoredQuotesConcat(a: seq<seq<string>>, b: seq<seq<string>>)
    ensures AuthoredQuotes(a + b) == AuthoredQuotes(a) + AuthoredQuotes(b)
    decreases |b|
  {
    if b == [] {
      assert a + b == a;
    } else {
      var init, last := b[..|b| - 1], b[|b| - 1];
      assert (a + b)[..|a + b| - 1] == a + init;
      assert (a + b)[|a + b| - 1] == last;
      calc {
        AuthoredQuotes(a + b);
        AuthoredQuotes(a + init) + RecordOf(last);
        { AuthoredQuotesConcat(a, init); }
        AuthoredQuotes(a) + AuthoredQuotes(init) + RecordOf(last);
        AuthoredQuotes(a) + AuthoredQuotes(b);
      }
    }
  }

  /** Every row with two fields and a non-blank quote yields one record, in order. */
  lemma {:induction false} AuthoredQuotesKeepWellFormed(rows: seq<seq<string>>)
    requires forall i :: 0 <= i < |rows| ==> 2 <= |rows[i]| && Strip(rows[i][0]) != ""
    ensures |AuthoredQuotes(rows)| == |rows|
    ensures forall i :: 0 <= i < |rows| ==>
      AuthoredQuotes(rows)[i] == AuthoredQuote(Strip(rows[i][0]), Strip(rows[i][1]))
  {
    if rows != [] {
      var init, last := rows[..|rows| - 1], rows[|rows| - 1];
      AuthoredQuotesKeepWellFormed(init);
      var record := AuthoredQuote(Strip(last[0]), Strip(last[1]));
      assert RecordOf(last) == [record];
      var result := AuthoredQuotes(init) + [record];
      assert AuthoredQuotes(rows) == result;
      forall i | 0 <= i < |rows|
        ensures result[i] == AuthoredQuote(Strip(rows[i][0]), Strip(rows[i][1]))
      {
        if i < |init| {
          assert rows[i] == init[i];
        }
      }
    }
  }

  /** A well-formed row next to a one-field row yields exactly one record. */
  lemma MalformedRowSkipped(quote: string, author: string, lone: string)
    requires !IsBlank(quote)
    ensures AuthoredQuotes([[quote, author], [lone]]) == [AuthoredQuote(Strip(quote), Strip(author))]
  {
    var rows := [[quote, author], [lone]];
    assert rows[..1] == [[quote, author]];
    assert rows[..1][..0] == [];
  }
}
