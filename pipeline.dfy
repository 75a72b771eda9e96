/**
 * The streaming job: the mapper's output lines are the reducer's input. A
 * line the mapper prints parses back to the record it encodes, and after
 * the reducer has read the whole output, the count of (sentiment, word) is
 * the number of times the word occurs in the text of the rows of that
 * sentiment.
 */
module Pipeline {
  import opened Strings
  import opened Mapper
  import opened Reducer

  /** The records that the lines of one accepted row encode. */
  function Emitted(s: Sentiment, words: seq<string>): (recs: seq<Record>)
    ensures |recs| == |words|
    ensures forall i :: 0 <= i < |words| ==> recs[i] == Record(Name(s), words[i], 1)
  {
    seq(|words|, i requires 0 <= i < |words| => Record(Name(s), words[i], 1))
  }

  lemma {:induction false} EmittedSnoc(s: Sentiment, words: seq<string>, j: nat)
    requires j < |words|
    ensures Emitted(s, words[..j + 1]) == Emitted(s, words[..j]) + [Record(Name(s), words[j], 1)]
  {
  }

  /** Mapper line 29 read by reducer lines 9-21: the same sentiment, the same word, count 1. */
  lemma {:induction false} RoundTrip(s: Sentiment, w: string)
    requires IsWord(w)
    ensures ParseLine(EmitLine(s, w)) == Some(Record(Name(s), w, 1))
  {
    EmitLineShape(s, w);
    StripNoop("1", IsPySpace);
    assert IsDigits("1") && DigitsValue("1") == 1 by {
      assert "1"[..0] == [];
    }
    ParseWellFormed(Name(s), w, "1", 1);
  }

  /** One emitted line on its own parses to its one record. */
  lemma {:induction false} ParseEmittedLine(s: Sentiment, w: string)
    requires IsWord(w)
    ensures ParseAll([EmitLine(s, w)]) == [Record(Name(s), w, 1)]
  {
    RoundTrip(s, w);
    ParseAllOfLine(EmitLine(s, w), Record(Name(s), w, 1));
  }

  /** The reducer reads back, line by line, the records the mapper meant. */
  lemma {:induction false} ParseEmitted(s: Sentiment, words: seq<string>)
    requires forall i :: 0 <= i < |words| ==> IsWord(words[i])
    ensures ParseAll(EmitLines(s, words)) == Emitted(s, words)
  {
    if words != [] {
      var init := words[..|words| - 1];
      var last := words[|words| - 1];
      var lines := EmitLines(s, init);
      ParseEmitted(s, init);
      EmitLinesSnoc(s, words, |words| - 1);
      assert words[..|words|] == words;
      ParseAllSnocLine(lines, EmitLine(s, last));
      ParseEmittedLine(s, last);
      EmittedSnoc(s, words, |words| - 1);
    }
  }

  lemma {:induction false} NameIsInjective(s: Sentiment, s': Sentiment)
    ensures Name(s) == Name(s') <==> s == s'
  {
    if s != s' {
      assert Name(s)[0] != Name(s')[0];
    }
  }

  /** The total of (Name(s'), w) in the records of one row: the word's occurrences, or 0 for the other sentiment. */
  lemma {:induction false} TotalEmitted(s: Sentiment, words: seq<string>, s': Sentiment, w: string)
    ensures Total(Emitted(s, words), Name(s'), w) == if s == s' then multiset(words)[w] else 0
  {
    NameIsInjective(s, s');
    if words != [] {
      var n := |words| - 1;
      var init, last := words[..n], words[n];
      TotalEmitted(s, init, s', w);
      EmittedSnoc(s, words, n);
      assert words[..n + 1] == words == init + [last];
      TotalSnoc(Emitted(s, init), Record(Name(s), last, 1), Name(s'), w);
    }
  }

  /** The words the mapper emits for sentiment s, row after row. */
  function MappedWords(rows: seq<seq<string>>, s: Sentiment): seq<string>
  {
    if rows == [] then []
    else
      var last := rows[|rows| - 1];
      MappedWords(rows[..|rows| - 1], s) + if Classify(last) == Some(s) && |last| > 1 then RowWords(last) else []
  }

  lemma {:induction false} TotalOfRow(row: seq<string>, s: Sentiment, w: string)
    ensures Total(ParseAll(MapRow(row)), Name(s), w)
         == multiset(if Classify(row) == Some(s) && |row| > 1 then RowWords(row) else [])[w]
  {
    if Classify(row).Some? && |row| > 1 {
      var words := RowWords(row);
      ParseEmitted(Classify(row).value, words);
      TotalEmitted(Classify(row).value, words, s, w);
    }
  }

  /**
   * End to end: once the reducer has read all the mapper's lines, each
   * (sentiment, word) total is the number of occurrences of the word in
   * the rows of that sentiment.
   */
  lemma {:induction false} CountsAreOccurrences(rows: seq<seq<string>>, s: Sentiment, w: string)
    ensures Total(ParseAll(MapAll(rows)), Name(s), w) == multiset(MappedWords(rows, s))[w]
  {
    if rows != [] {
      var init := rows[..|rows| - 1];
      var last := rows[|rows| - 1];
      CountsAreOccurrences(init, s, w);
      MergeTotals(MapAll(init), MapRow(last), Name(s), w);
      TotalOfRow(last, s, w);
    }
  }

  /** The table the reducer builds from the mapper's output reads the occurrence counts. */
  lemma {:induction false} PipelineCounts(rows: seq<seq<string>>, t: Table, s: Sentiment, w: string)
    requires Models(t, ParseAll(MapAll(rows)))
    ensures Lookup(t, Name(s), w) == multiset(MappedWords(rows, s))[w]
  {
    ModelsLookup(t, ParseAll(MapAll(rows)));
    CountsAreOccurrences(rows, s, w);
  }
}
