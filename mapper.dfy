/**
 * The map stage (mapper1.py): each CSV row whose label field cleans to the
 * integer 1 or 2 is tagged negative or positive, and every maximal run of
 * word characters in its lowercased text field is emitted as the line
 * "sentiment:word<TAB>1".
 */
module Mapper {
  import opened Strings

  datatype Sentiment = Negative | Positive

  function Name(s: Sentiment): string
  {
    match s
    case Negative => "negative"
    case Positive => "positive"
  }

  /** The regular-expression class \w on ASCII: letters, digits and underscore. */
  predicate IsWordChar(c: char) {
    IsAsciiLetter(c) || IsDigit(c) || c == '_'
  }

  predicate IsWord(w: string) {
    |w| > 0 && forall i :: 0 <= i < |w| ==> IsWordChar(w[i])
  }

  predicate NoWordChar(s: string) {
    forall i :: 0 <= i < |s| ==> !IsWordChar(s[i])
  }

  /** re.findall(r'\w+', text): the maximal runs of word characters, left to right. */
  function FindWords(text: string): (words: seq<string>)
    ensures forall i :: 0 <= i < |words| ==> IsWord(words[i])
    decreases |text|
  {
    if text == [] then []
    else if !IsWordChar(text[0]) then FindWords(text[1..])
    else
      var n := PrefixLen(text, IsWordChar);
      [text[..n]] + FindWords(text[n..])
  }

  /** A text made of word characters only is one word. */
  lemma {:induction false} FindWordsOfWord(w: string)
    requires IsWord(w)
    ensures FindWords(w) == [w]
  {
    var n := PrefixLen(w, IsWordChar);
    assert n == |w|;
    assert w[..n] == w && w[n..] == [];
  }

  /** A text with no word character holds no word. */
  lemma {:induction false} FindWordsOfGap(g: string)
    requires NoWordChar(g)
    ensures FindWords(g) == []
  {
    if g != [] {
      FindWordsOfGap(g[1..]);
    }
  }

  /**
   * A non-word character separates: the words of a + [c] + b are the words
   * of a followed by the words of b. With the two lemmas above this fixes
   * FindWords on every text.
   */
  lemma {:induction false} FindWordsSplit(a: string, c: char, b: string)
    requires !IsWordChar(c)
    ensures FindWords(a + [c] + b) == FindWords(a) + FindWords(b)
    decreases |a|
  {
    var t := a + [c] + b;
    if a == [] {
      assert t[1..] == b;
    } else if !IsWordChar(a[0]) {
      assert t[1..] == a[1..] + [c] + b;
      FindWordsSplit(a[1..], c, b);
    } else {
      var n := PrefixLen(a, IsWordChar);
      assert t[..|a|] == a && t[|a|] == c;
      PrefixLenAt(t, IsWordChar, n);
      assert t[..n] == a[..n];
      assert t[n..] == a[n..] + [c] + b;
      FindWordsSplit(a[n..], c, b);
      assert FindWords(t) == [a[..n]] + FindWords(a[n..] + [c] + b);
      assert FindWords(a) == [a[..n]] + FindWords(a[n..]);
      ConcatAssoc([a[..n]], FindWords(a[n..]), FindWords(b));
    }
  }

  predicate IsQuote(c: char) { c == '"' }

  /** Line 9: strip whitespace, strip double quotes, lowercase. */
  function CleanLabel(field: string): (r: string)
    ensures |r| <= |field|
    ensures forall i :: 0 <= i < |r| ==> !IsUpper(r[i])
    ensures r == [] || (r[0] != '"' && r[|r| - 1] != '"')
  {
    Lower(Strip(Strip(field, IsPySpace), IsQuote))
  }

  lemma {:induction false} StripPadding(l: string, q: string, r: string)
    requires forall i :: 0 <= i < |l| ==> IsPySpace(l[i])
    requires forall i :: 0 <= i < |r| ==> IsPySpace(r[i])
    requires q != [] && !IsPySpace(q[0]) && !IsPySpace(q[|q| - 1])
    ensures Strip(l + q + r, IsPySpace) == q
  {
    var s := l + q + r;
    assert s[|l|..|l| + |q|] == q;
    assert forall k :: 0 <= k < |l| ==> s[k] == l[k];
    assert forall k :: |l| + |q| <= k < |s| ==> s[k] == r[k - |l| - |q|];
    StripUnique(s, IsPySpace, |l|, q);
  }

  lemma {:induction false} StripQuotes(w: string)
    requires w != [] && !IsQuote(w[0]) && !IsQuote(w[|w| - 1])
    ensures Strip(['"'] + w + ['"'], IsQuote) == w
  {
    var q := ['"'] + w + ['"'];
    assert |q| == |w| + 2 && q[0] == '"' && q[|q| - 1] == '"';
    assert q[1..1 + |w|] == w;
    StripUnique(q, IsQuote, 1, w);
  }

  /** Whitespace around the quotes and the quotes go; capitals are lowered. */
  lemma {:induction false} CleanLabelUnquotes(l: string, w: string, r: string)
    requires forall i :: 0 <= i < |l| ==> IsPySpace(l[i])
    requires forall i :: 0 <= i < |r| ==> IsPySpace(r[i])
    requires w != [] && !IsQuote(w[0]) && !IsQuote(w[|w| - 1])
    ensures CleanLabel(l + ['"'] + w + ['"'] + r) == Lower(w)
  {
    var q := ['"'] + w + ['"'];
    assert l + ['"'] + w + ['"'] + r == l + q + r;
    StripPadding(l, q, r);
    StripQuotes(w);
  }

  /** A quoted label cleans to what lies between the quotes. */
  lemma {:induction false} CleanQuotedLabel()
    ensures CleanLabel("\"2\"") == "2"
  {
    StripNoop("\"2\"", IsPySpace);
    assert "\"2\""[1..2] == "2";
    StripUnique("\"2\"", IsQuote, 1, "2");
  }

  lemma {:induction false} HeadersAreNotIntegers()
    ensures ParseInt("label") == None && ParseInt("sentiment") == None
  {
    StripNoop("label", IsPySpace);
    StripNoop("sentiment", IsPySpace);
  }

  /**
   * Lines 6-23: the sentiment of a row, or None for an empty row, a header
   * row, a label that int() rejects, or an integer other than 1 and 2.
   */
  function Classify(row: seq<string>): (r: Option<Sentiment>)
    ensures r == Some(Negative) <==> |row| > 0 && ParseInt(CleanLabel(row[0])) == Some(1)
    ensures r == Some(Positive) <==> |row| > 0 && ParseInt(CleanLabel(row[0])) == Some(2)
  {
    if |row| == 0 then None
    else
      var raw := CleanLabel(row[0]);
      HeadersAreNotIntegers();
      if raw == "label" || raw == "sentiment" then None
      else
        match ParseInt(raw)
        case None => None
        case Some(n) => if n == 1 then Some(Negative) else if n == 2 then Some(Positive) else None
  }

  /**
   * Lines 6-25: an empty row, a header row, a label int() rejects, an
   * integer other than 1 and 2, or a row with a single field prints nothing.
   */
  lemma {:induction false} RejectedRows(row: seq<string>)
    ensures |row| == 0 ==> MapRow(row) == []
    ensures |row| > 0 && CleanLabel(row[0]) in {"label", "sentiment"} ==> MapRow(row) == []
    ensures |row| > 0 && ParseInt(CleanLabel(row[0])).None? ==> MapRow(row) == []
    ensures |row| > 0 && ParseInt(CleanLabel(row[0])).Some? && ParseInt(CleanLabel(row[0])).value !in {1, 2} ==> MapRow(row) == []
    ensures |row| == 1 ==> MapRow(row) == []
  {
    HeadersAreNotIntegers();
  }

  /** Line 29: the line printed for one word. */
  function EmitLine(s: Sentiment, word: string): string
  {
    Name(s) + ":" + word + "\t1"
  }

  function EmitLines(s: Sentiment, words: seq<string>): (lines: seq<string>)
    ensures |lines| == |words|
    ensures forall i :: 0 <= i < |words| ==> lines[i] == EmitLine(s, words[i])
  {
    seq(|words|, i requires 0 <= i < |words| => EmitLine(s, words[i]))
  }

  /** The words a row contributes: those of its lowercased second field when it is accepted. */
  function RowWords(row: seq<string>): seq<string>
    requires Classify(row).Some? && |row| > 1
  {
    FindWords(Lower(row[1]))
  }

  /** The lines printed for one row (lines 6-29). */
  function MapRow(row: seq<string>): (lines: seq<string>)
    ensures lines != [] ==> Classify(row).Some? && |row| > 1
    ensures Classify(row).Some? && |row| > 1 ==> |lines| == |FindWords(Lower(row[1]))|
    ensures forall i :: 0 <= i < |lines| ==>
      exists w :: IsWord(w) && lines[i] == EmitLine(Classify(row).value, w)
  {
    match Classify(row)
    case None => []
    case Some(s) =>
      if |row| > 1 then
        var words := FindWords(Lower(row[1]));
        var lines := EmitLines(s, words);
        assert forall i :: 0 <= i < |lines| ==> IsWord(words[i]) && lines[i] == EmitLine(s, words[i]);
        lines
      else []
  }

  /** The output of the whole loop over rows. */
  function MapAll(rows: seq<seq<string>>): seq<string>
  {
    if rows == [] then [] else MapAll(rows[..|rows| - 1]) + MapRow(rows[|rows| - 1])
  }

  lemma {:induction false} EmitLinesSnoc(s: Sentiment, words: seq<string>, j: nat)
    requires j < |words|
    ensures EmitLines(s, words[..j + 1]) == EmitLines(s, words[..j]) + [EmitLine(s, words[j])]
  {
  }

  /** The body of the loop of lines 5-29 for one row: its printed lines. */
  method MapOneRow(row: seq<string>) returns (lines: seq<string>)
    ensures lines == MapRow(row)
  {
    lines := [];
    var sentiment := Classify(row);
    if sentiment.Some? && |row| > 1 {
      var words := FindWords(Lower(row[1]));
      for j := 0 to |words|
        invariant lines == EmitLines(sentiment.value, words[..j])
      {
        EmitLinesSnoc(sentiment.value, words, j);
        lines := lines + [EmitLine(sentiment.value, words[j])];
      }
      assert words[..|words|] == words;
    }
  }

  /** The for-loop of lines 5-29, printing into out. */
  method MapRows(rows: seq<seq<string>>) returns (out: seq<string>)
    ensures out == MapAll(rows)
  {
    out := [];
    for i := 0 to |rows|
      invariant out == MapAll(rows[..i])
    {
      var lines := MapOneRow(rows[i]);
      assert rows[..i + 1][..i] == rows[..i];
      out := out + lines;
    }
    assert rows[..|rows|] == rows;
  }

  /** Mapper line 29: one word's line, as the reducer reads it. */
  lemma {:induction false} EmitLineShape(s: Sentiment, w: string)
    requires IsWord(w)
    ensures EmitLine(s, w) == Name(s) + [':'] + w + ['\t'] + "1"
    ensures ':' !in Name(s) && '\t' !in Name(s) && '\t' !in w && ':' !in w
  {
  }
}
