/**
 * The Spark job (spark_v2.py) read as functions on sequences of rows: the
 * polarity column becomes a label (1 positive, 0 negative), rows without a
 * label or with blank text are dropped, the text is cleaned to lowercase
 * letters and whitespace and split on whitespace runs, tokens of length
 * at least 2 are counted per label, and the 30 most frequent words of each
 * label are listed, then tagged and concatenated.
 */
module Spark {
  import opened Strings
  import opened Ranking

  /** topN, line 48. */
  const TopN: nat := 30

  /** One CSV record: the columns _c0, _c1, _c2; None is SQL NULL. */
  datatype Row = Row(polarity: Option<string>, title: Option<string>, text: Option<string>)

  /** The one character Spark's trim() removes: the space, U+0020. */
  predicate IsBlank(c: char) { c == ' ' }

  /** Spark's trim(): removes leading and trailing spaces only. */
  function SparkTrim(s: string): (r: string)
    ensures r == [] || (r[0] != ' ' && r[|r| - 1] != ' ')
    ensures exists i :: StrippedAt(s, IsBlank, i, r)
  {
    Strip(s, IsBlank)
  }

  /**
   * Lines 29-35: label 1 when the trimmed, lowercased polarity is exactly
   * "2", label 0 when it is exactly "1", NULL otherwise (also for a NULL
   * polarity, where both comparisons are NULL).
   */
  function LabelOf(polarity: Option<string>): (l: Option<int>)
    ensures l == Some(1) <==> polarity.Some? && SparkTrim(Lower(polarity.value)) == "2"
    ensures l == Some(0) <==> polarity.Some? && SparkTrim(Lower(polarity.value)) == "1"
    ensures l.Some? ==> l.value == 0 || l.value == 1
  {
    match polarity
    case None => None
    case Some(v) =>
      var p := SparkTrim(Lower(v));
      if p == "2" then Some(1) else if p == "1" then Some(0) else None
  }

  /** A polarity without capitals or surrounding spaces is compared as it is. */
  lemma {:induction false} PlainPolarity(v: string)
    requires forall i :: 0 <= i < |v| ==> !IsUpper(v[i])
    requires v == [] || (v[0] != ' ' && v[|v| - 1] != ' ')
    ensures SparkTrim(Lower(v)) == v
  {
    assert Lower(v) == v;
    StripNoop(v, IsBlank);
  }

  /** trim() removes the surrounding spaces before the comparison. */
  lemma {:induction false} SpacedLabel()
    ensures LabelOf(Some(" 2 ")) == Some(1)
  {
    assert Lower(" 2 ") == " 2 ";
    assert PrefixLen(" 2 ", IsBlank) == 1;
    assert " 2 "[1..] == "2 ";
    assert SuffixLen("2 ", IsBlank) == 1;
  }

  /** The comparison is on strings, not numbers: no int() leniency, and trim() leaves tabs. */
  lemma {:induction false} LabelsAreExactStrings()
    ensures LabelOf(Some("1")) == Some(0)
    ensures LabelOf(Some("02")) == None && LabelOf(Some("+1")) == None
    ensures LabelOf(Some("\t1")) == None
    ensures LabelOf(None) == None
  {
    PlainPolarity("1");
    PlainPolarity("02");
    PlainPolarity("+1");
    PlainPolarity("\t1");
  }

  /** Line 38: the label is not NULL, the text is not NULL and not blank after trim(). */
  predicate KeepRow(row: Row) {
    LabelOf(row.polarity).Some? && row.text.Some? && SparkTrim(row.text.value) != ""
  }

  /** A text is blank after trim() exactly when it holds only spaces. */
  lemma {:induction false} KeepRowIffNonBlank(row: Row)
    ensures KeepRow(row) <==>
      (LabelOf(row.polarity).Some? && row.text.Some? &&
       exists i :: 0 <= i < |row.text.value| && row.text.value[i] != ' ')
  {
    if row.text.Some? {
      StripEmpty(row.text.value, IsBlank);
    }
  }

  /** Line 38: the rows the filter keeps, in order. */
  function Filtered(rows: seq<Row>): (r: seq<Row>)
    ensures |r| <= |rows|
    ensures forall i :: 0 <= i < |r| ==> KeepRow(r[i]) && r[i] in rows
    ensures forall x :: x in rows && KeepRow(x) ==> x in r
  {
    if rows == [] then []
    else (if KeepRow(rows[0]) then [rows[0]] else []) + Filtered(rows[1..])
  }

  /** Line 42, one character: ASCII letters and \s stay, everything else becomes a space. */
  function CleanChar(c: char): (d: char)
    ensures IsAsciiLetter(d) || IsJavaSpace(d)
    ensures IsAsciiLetter(c) || IsJavaSpace(c) ==> d == c
    ensures !IsAsciiLetter(c) ==> IsJavaSpace(d)
    ensures !(IsAsciiLetter(c) || IsJavaSpace(c)) ==> d == ' '
  {
    if IsAsciiLetter(c) || IsJavaSpace(c) then c else ' '
  }

  /** Line 42: regexp_replace(text, "[^A-Za-z\s]", " "). */
  function Replace(s: string): (r: string)
    ensures |r| == |s|
    ensures forall i :: 0 <= i < |s| ==> r[i] == CleanChar(s[i])
  {
    seq(|s|, i requires 0 <= i < |s| => CleanChar(s[i]))
  }

  /** trim() keeps part of its input, so a text of letters and \s stays one. */
  lemma {:induction false} TrimmedIsClean(s: string)
    requires forall i :: 0 <= i < |s| ==> IsAsciiLetter(s[i]) || IsJavaSpace(s[i])
    ensures forall i :: 0 <= i < |SparkTrim(s)| ==>
      IsAsciiLetter(SparkTrim(s)[i]) || IsJavaSpace(SparkTrim(s)[i])
  {
    var t := SparkTrim(s);
    var n :| StrippedAt(s, IsBlank, n, t);
    forall i | 0 <= i < |t| ensures IsAsciiLetter(t[i]) || IsJavaSpace(t[i]) {
      assert t[i] == s[n + i];
    }
  }

  lemma {:induction false} ReplaceAppend(a: string, b: string)
    ensures Replace(a + b) == Replace(a) + Replace(b)
  {
    assert forall i :: 0 <= i < |a + b| ==> Replace(a + b)[i] == (Replace(a) + Replace(b))[i];
  }

  /** Lines 42-43: the cleaned text, lower(trim(replaced)). */
  function CleanText(s: string): (r: string)
    ensures |r| <= |s|
    ensures forall i :: 0 <= i < |r| ==> IsLower(r[i]) || IsJavaSpace(r[i])
    ensures r == [] || (r[0] != ' ' && r[|r| - 1] != ' ')
  {
    var t := SparkTrim(Replace(s));
    TrimmedIsClean(Replace(s));
    Lower(t)
  }

  predicate NoJavaSpace(s: string) {
    forall i :: 0 <= i < |s| ==> !IsJavaSpace(s[i])
  }

  /** The characters of s that are not \s, in order. */
  function NonSpace(s: string): (r: string)
    ensures NoJavaSpace(r)
  {
    if s == [] then []
    else (if IsJavaSpace(s[0]) then [] else [s[0]]) + NonSpace(s[1..])
  }

  /** The ASCII letters of s, in order. */
  function Letters(s: string): string
  {
    if s == [] then []
    else (if IsAsciiLetter(s[0]) then [s[0]] else []) + Letters(s[1..])
  }

  function Flatten(pieces: seq<string>): string
  {
    if pieces == [] then [] else pieces[0] + Flatten(pieces[1..])
  }

  lemma {:induction false} NonSpaceAppend(a: string, b: string)
    ensures NonSpace(a + b) == NonSpace(a) + NonSpace(b)
  {
    if a == [] {
      assert a + b == b;
    } else {
      var head := if IsJavaSpace(a[0]) then [] else [a[0]];
      assert (a + b)[1..] == a[1..] + b;
      assert (a + b)[0] == a[0];
      NonSpaceAppend(a[1..], b);
      ConcatAssoc(head, NonSpace(a[1..]), NonSpace(b));
    }
  }

  lemma {:induction false} NonSpaceOfSpaces(s: string)
    requires forall i :: 0 <= i < |s| ==> IsJavaSpace(s[i])
    ensures NonSpace(s) == []
  {
    if s != [] {
      NonSpaceOfSpaces(s[1..]);
    }
  }

  lemma {:induction false} NonSpaceOfPiece(s: string)
    requires NoJavaSpace(s)
    ensures NonSpace(s) == s
  {
    if s != [] {
      NonSpaceOfPiece(s[1..]);
    }
  }

  /**
   * Line 44, split(text, "\s+"): the pieces between maximal runs of \s,
   * with the empty leading or trailing piece a run at either end leaves
   * (Java's String.split with a negative limit). A \s character followed
   * by another one belongs to the same run; the last one of a run starts
   * the next piece.
   */
  function SplitWs(s: string): (pieces: seq<string>)
    ensures |pieces| >= 1
    ensures forall i :: 0 <= i < |pieces| ==> NoJavaSpace(pieces[i])
  {
    if s == [] then [[]]
    else
      var rest := SplitWs(s[1..]);
      if !IsJavaSpace(s[0]) then [[s[0]] + rest[0]] + rest[1..]
      else if |s| > 1 && IsJavaSpace(s[1]) then rest
      else [[]] + rest
  }

  /** The pieces hold exactly the characters of s that are not \s, in order. */
  lemma {:induction false} SplitWsKeepsNonSpace(s: string)
    ensures Flatten(SplitWs(s)) == NonSpace(s)
  {
    if s != [] {
      SplitWsKeepsNonSpace(s[1..]);
      var rest := SplitWs(s[1..]);
      assert rest == [rest[0]] + rest[1..];
      assert Flatten(rest) == rest[0] + Flatten(rest[1..]);
      if !IsJavaSpace(s[0]) {
        var pieces := [[s[0]] + rest[0]] + rest[1..];
        assert pieces[1..] == rest[1..];
      } else if !(|s| > 1 && IsJavaSpace(s[1])) {
        assert ([[]] + rest)[1..] == rest;
      }
    }
  }

  /** A piece without \s is split into itself. */
  lemma {:induction false} SplitWsOfPiece(w: string)
    requires NoJavaSpace(w)
    ensures SplitWs(w) == [w]
  {
    if w != [] {
      SplitWsOfPiece(w[1..]);
      assert [w[0]] + w[1..] == w;
    }
  }

  /** A prefix without \s joins the first piece of what follows it. */
  lemma {:induction false} SplitWsPrefix(a: string, t: string)
    requires NoJavaSpace(a)
    ensures SplitWs(a + t) == [a + SplitWs(t)[0]] + SplitWs(t)[1..]
  {
    if a == [] {
      assert a + t == t && a + SplitWs(t)[0] == SplitWs(t)[0];
      assert SplitWs(t) == [SplitWs(t)[0]] + SplitWs(t)[1..];
    } else {
      assert (a + t)[0] == a[0];
      assert (a + t)[1..] == a[1..] + t;
      SplitWsPrefix(a[1..], t);
      ConcatAssoc([a[0]], a[1..], SplitWs(t)[0]);
      assert [a[0]] + a[1..] == a;
    }
  }

  /** A text that starts with \s has an empty first piece. */
  lemma {:induction false} SplitWsSpaceStart(t: string)
    requires t != [] && IsJavaSpace(t[0])
    ensures SplitWs(t)[0] == []
  {
    if |t| > 1 && IsJavaSpace(t[1]) {
      SplitWsSpaceStart(t[1..]);
    }
  }

  /** A maximal run of \s at the front leaves one empty piece. */
  lemma {:induction false} SplitWsOfRun(r: string, b: string)
    requires r != [] && forall i :: 0 <= i < |r| ==> IsJavaSpace(r[i])
    requires b == [] || !IsJavaSpace(b[0])
    ensures SplitWs(r + b) == [[]] + SplitWs(b)
  {
    var s := r + b;
    assert s[0] == r[0] && s[1..] == r[1..] + b;
    if |r| > 1 {
      assert s[1] == r[1];
      SplitWsOfRun(r[1..], b);
    } else {
      assert s[1..] == b;
      assert |s| > 1 ==> s[1] == b[0];
    }
  }

  /** A maximal run of \s ends a piece: split(a + run + b) == [a] + split(b). */
  lemma {:induction false} SplitWsSplit(a: string, r: string, b: string)
    requires NoJavaSpace(a)
    requires r != [] && forall i :: 0 <= i < |r| ==> IsJavaSpace(r[i])
    requires b == [] || !IsJavaSpace(b[0])
    ensures SplitWs(a + r + b) == [a] + SplitWs(b)
  {
    SplitWsOfRun(r, b);
    SplitWsPrefix(a, r + b);
    ConcatAssoc(a, r, b);
    assert a + [] == a;
  }

  /** Splitting cleaned text gives pieces of lowercase letters. */
  lemma {:induction false} SplitWsOfLowerText(s: string)
    requires forall i :: 0 <= i < |s| ==> IsLower(s[i]) || IsJavaSpace(s[i])
    ensures forall i, j :: 0 <= i < |SplitWs(s)| && 0 <= j < |SplitWs(s)[i]| ==> IsLower(SplitWs(s)[i][j])
  {
    if s != [] {
      SplitWsOfLowerText(s[1..]);
    }
  }

  lemma {:induction false} NonSpaceOfBlankEnds(a: string, m: string, b: string)
    requires forall i :: 0 <= i < |a| ==> IsBlank(a[i])
    requires forall i :: 0 <= i < |b| ==> IsBlank(b[i])
    ensures NonSpace(a + m + b) == NonSpace(m)
  {
    NonSpaceOfSpaces(a);
    NonSpaceOfSpaces(b);
    NonSpaceAppend(a, m + b);
    NonSpaceAppend(m, b);
    assert a + m + b == a + (m + b);
    assert NonSpace(m) + [] == NonSpace(m);
  }

  lemma {:induction false} NonSpaceOfTrim(s: string)
    ensures NonSpace(SparkTrim(s)) == NonSpace(s)
  {
    var left, right := TrimSplit(s);
    NonSpaceOfBlankEnds(left, SparkTrim(s), right);
  }

  lemma {:induction false} NonSpaceOfLower(s: string)
    ensures NonSpace(Lower(s)) == Lower(NonSpace(s))
  {
    if s != [] {
      assert Lower(s)[1..] == Lower(s[1..]);
      NonSpaceOfLower(s[1..]);
      var h := if IsJavaSpace(s[0]) then [] else [s[0]];
      assert Lower(h + NonSpace(s[1..])) == Lower(h) + Lower(NonSpace(s[1..]));
    }
  }

  lemma {:induction false} NonSpaceOfReplace(s: string)
    ensures NonSpace(Replace(s)) == Letters(s)
  {
    if s != [] {
      assert Replace(s)[1..] == Replace(s[1..]);
      NonSpaceOfReplace(s[1..]);
    }
  }

  /** Cleaning and splitting keep exactly the text's ASCII letters, lowercased, in order. */
  lemma {:induction false} SplitKeepsLetters(text: string)
    ensures Flatten(SplitWs(CleanText(text))) == Lower(Letters(text))
  {
    SplitWsKeepsNonSpace(CleanText(text));
    NonSpaceOfLower(SparkTrim(Replace(text)));
    NonSpaceOfTrim(Replace(text));
    NonSpaceOfReplace(text);
  }

  predicate IsToken(w: string) {
    |w| >= 2 && forall i :: 0 <= i < |w| ==> IsLower(w[i])
  }

  /** The pieces of length at least 2 (line 45), in order. */
  function LongPieces(pieces: seq<string>): (r: seq<string>)
    ensures forall i :: 0 <= i < |r| ==> |r[i]| >= 2 && r[i] in pieces
  {
    if pieces == [] then []
    else (if |pieces[0]| >= 2 then [pieces[0]] else []) + LongPieces(pieces[1..])
  }

  lemma {:induction false} LongPiecesAppend(p: seq<string>, q: seq<string>)
    ensures LongPieces(p + q) == LongPieces(p) + LongPieces(q)
  {
    if p == [] {
      assert p + q == q;
    } else {
      var head := if |p[0]| >= 2 then [p[0]] else [];
      assert (p + q)[1..] == p[1..] + q;
      assert (p + q)[0] == p[0];
      LongPiecesAppend(p[1..], q);
      ConcatAssoc(head, LongPieces(p[1..]), LongPieces(q));
    }
  }

  lemma {:induction false} LongPiecesOne(w: string)
    ensures LongPieces([w]) == if |w| >= 2 then [w] else []
  {
    assert [w][1..] == [];
  }

  /** Lines 42-45 for one text: the tokens it contributes. */
  function Tokens(text: string): (r: seq<string>)
    ensures forall i :: 0 <= i < |r| ==> IsToken(r[i])
  {
    var pieces := SplitWs(CleanText(text));
    SplitWsOfLowerText(CleanText(text));
    LongPieces(pieces)
  }

  /** The long pieces of a split: what Tokens keeps of a cleaned text. */
  function Runs(s: string): seq<string>
  {
    LongPieces(SplitWs(s))
  }

  /** A leading \s character contributes nothing. */
  lemma {:induction false} RunsSpaceFront(c: char, y: string)
    requires IsJavaSpace(c)
    ensures Runs([c] + y) == Runs(y)
  {
    var s := [c] + y;
    assert s[0] == c && s[1..] == y;
    if !(|s| > 1 && IsJavaSpace(s[1])) {
      assert SplitWs(s) == [[]] + SplitWs(y);
      LongPiecesAppend([[]], SplitWs(y));
    }
  }

  /** A piece followed by \s is one candidate token, then the rest. */
  lemma {:induction false} RunsAfterPiece(a: string, t: string)
    requires NoJavaSpace(a)
    requires t != [] && IsJavaSpace(t[0])
    ensures Runs(a + t) == LongPieces([a]) + Runs(t)
  {
    var st := SplitWs(t);
    var rest := st[1..];
    SplitWsPrefix(a, t);
    SplitWsSpaceStart(t);
    assert a + st[0] == a;
    assert SplitWs(a + t) == [a] + rest;
    assert st == [[]] + rest;
    LongPiecesAppend([a], rest);
    LongPiecesAppend([[]], rest);
    LongPiecesOne([]);
  }

  /** One \s character separates: the runs of x + [c] + y are those of x, then those of y. */
  lemma {:induction false} RunsSplit(a: string, x: string, c: char, y: string)
    requires NoJavaSpace(a) && IsJavaSpace(c)
    ensures Runs(a + x + [c] + y) == Runs(a + x) + Runs(y)
    decreases |x|
  {
    if x == [] {
      assert a + x + [c] + y == a + ([c] + y);
      assert a + x == a;
      RunsAfterPiece(a, [c] + y);
      RunsSpaceFront(c, y);
      SplitWsOfPiece(a);
    } else if !IsJavaSpace(x[0]) {
      var a' := a + [x[0]];
      assert NoJavaSpace(a') by {
        assert forall i :: 0 <= i < |a| ==> a'[i] == a[i];
      }
      ConcatAssoc(a, [x[0]], x[1..]);
      assert [x[0]] + x[1..] == x;
      assert a + x == a' + x[1..];
      RunsSplit(a', x[1..], c, y);
    } else {
      var u := x[1..] + [c] + y;
      assert x + [c] + y == [x[0]] + u;
      ConcatAssoc(a, x, [c]);
      ConcatAssoc(a, x + [c], y);
      RunsAfterPiece(a, x + [c] + y);
      RunsSpaceFront(x[0], u);
      assert [] + x[1..] == x[1..];
      RunsSplit([], x[1..], c, y);
      RunsAfterPiece(a, x);
      assert x == [x[0]] + x[1..];
      RunsSpaceFront(x[0], x[1..]);
      ConcatAssoc(LongPieces([a]), Runs(x[1..]), Runs(y));
    }
  }

  lemma {:induction false} RunsOfSpaces(s: string)
    requires forall i :: 0 <= i < |s| ==> IsJavaSpace(s[i])
    ensures Runs(s) == []
  {
    if s == [] {
      assert SplitWs(s) == [[]];
      LongPiecesOne([]);
    } else {
      assert s == [s[0]] + s[1..];
      RunsSpaceFront(s[0], s[1..]);
      RunsOfSpaces(s[1..]);
    }
  }

  lemma {:induction false} RunsSkipSpaces(b: string, m: string)
    requires forall i :: 0 <= i < |b| ==> IsJavaSpace(b[i])
    ensures Runs(b + m) == Runs(m)
  {
    if b == [] {
      assert b + m == m;
    } else {
      assert b + m == [b[0]] + (b[1..] + m);
      RunsSpaceFront(b[0], b[1..] + m);
      RunsSkipSpaces(b[1..], m);
    }
  }

  lemma {:induction false} RunsDropSpaces(m: string, b: string)
    requires forall i :: 0 <= i < |b| ==> IsJavaSpace(b[i])
    ensures Runs(m + b) == Runs(m)
  {
    if b == [] {
      assert m + b == m;
    } else {
      assert m + b == [] + m + [b[0]] + b[1..];
      assert [] + m == m;
      RunsSplit([], m, b[0], b[1..]);
      RunsOfSpaces(b[1..]);
      assert Runs(m) + [] == Runs(m);
    }
  }

  /** Spaces around a text, lowercased, contribute no runs. */
  lemma {:induction false} RunsOfBlankEnds(l: string, m: string, r: string)
    requires forall i :: 0 <= i < |l| ==> IsBlank(l[i])
    requires forall i :: 0 <= i < |r| ==> IsBlank(r[i])
    ensures Runs(Lower(l + m + r)) == Runs(Lower(m))
  {
    LowerAppend(l + m, r);
    LowerAppend(l, m);
    ConcatAssoc(Lower(l), Lower(m), Lower(r));
    assert forall i :: 0 <= i < |l| ==> IsJavaSpace(Lower(l)[i]);
    assert forall i :: 0 <= i < |r| ==> IsJavaSpace(Lower(r)[i]);
    RunsSkipSpaces(Lower(l), Lower(m) + Lower(r));
    RunsDropSpaces(Lower(m), Lower(r));
  }

  /** trim() removes a run of spaces at each end and keeps what lies between. */
  lemma {:induction false} TrimSplit(r: string) returns (left: string, right: string)
    ensures r == left + SparkTrim(r) + right
    ensures forall i :: 0 <= i < |left| ==> IsBlank(left[i])
    ensures forall i :: 0 <= i < |right| ==> IsBlank(right[i])
  {
    var t := SparkTrim(r);
    var n :| StrippedAt(r, IsBlank, n, t);
    left, right := r[..n], r[n + |t|..];
    assert r == left + t + right;
    forall i | 0 <= i < |left| ensures IsBlank(left[i]) {
      assert left[i] == r[i];
    }
    forall i | 0 <= i < |right| ensures IsBlank(right[i]) {
      assert right[i] == r[n + |t| + i];
    }
  }

  /** trim() does not matter to the tokens: they are the runs of the lowercased, replaced text. */
  lemma {:induction false} TokensAreRuns(text: string)
    ensures Tokens(text) == Runs(Lower(Replace(text)))
  {
    var r := Replace(text);
    assert Tokens(text) == Runs(Lower(SparkTrim(r)));
    var left, right := TrimSplit(r);
    RunsOfBlankEnds(left, SparkTrim(r), right);
  }

  /** A character that is not an ASCII letter separates tokens. */
  lemma {:induction false} TokensSplit(a: string, c: char, b: string)
    requires !IsAsciiLetter(c)
    ensures Tokens(a + [c] + b) == Tokens(a) + Tokens(b)
  {
    ReplaceAppend(a + [c], b);
    ReplaceAppend(a, [c]);
    var ra, rb := Replace(a), Replace(b);
    var d := CleanChar(c);
    assert Replace([c]) == [d];
    LowerAppend(ra + [d], rb);
    LowerAppend(ra, [d]);
    assert Lower([d]) == [d];
    TokensAreRuns(a + [c] + b);
    TokensAreRuns(a);
    TokensAreRuns(b);
    assert [] + Lower(ra) == Lower(ra);
    RunsSplit([], Lower(ra), d, Lower(rb));
  }

  /** A word of ASCII letters is one token, lowercased, when it has at least two letters. */
  lemma {:induction false} TokensOfWord(w: string)
    requires forall i :: 0 <= i < |w| ==> IsAsciiLetter(w[i])
    ensures Tokens(w) == if |w| >= 2 then [Lower(w)] else []
  {
    assert Replace(w) == w;
    TokensAreRuns(w);
    assert NoJavaSpace(Lower(w));
    SplitWsOfPiece(Lower(w));
    LongPiecesOne(Lower(w));
  }

  /** One row of `words` (line 44): the row's label and one exploded word. */
  datatype WordRow = WordRow(wordLabel: Option<int>, word: string)

  function Labelled(lab: Option<int>, ws: seq<string>): (r: seq<WordRow>)
    ensures |r| == |ws|
    ensures forall i :: 0 <= i < |ws| ==> r[i] == WordRow(lab, ws[i])
  {
    seq(|ws|, i requires 0 <= i < |ws| => WordRow(lab, ws[i]))
  }

  /** Lines 44-45: every row becomes one WordRow per token of its text. */
  function Explode(rows: seq<Row>): (r: seq<WordRow>)
    ensures forall i :: 0 <= i < |r| ==> IsToken(r[i].word)
  {
    if rows == [] then []
    else
      var head := match rows[0].text
        case None => []
        case Some(t) => Labelled(LabelOf(rows[0].polarity), Tokens(t));
      head + Explode(rows[1..])
  }

  /** Lines 49 and 52: the words of the rows whose label is l. */
  function WithLabel(ws: seq<WordRow>, l: int): seq<string>
  {
    if ws == [] then []
    else (if ws[0].wordLabel == Some(l) then [ws[0].word] else []) + WithLabel(ws[1..], l)
  }

  /** The word stream counted for label l: filter, explode, filter by label. */
  function LabelWords(rows: seq<Row>, l: int): seq<string>
  {
    WithLabel(Explode(Filtered(rows)), l)
  }

  /** Reference: the tokens of the text of each kept row of label l, row by row. */
  function RowTokens(rows: seq<Row>, l: int): seq<string>
  {
    if rows == [] then [] else TokensOfRow(rows[0], l) + RowTokens(rows[1..], l)
  }

  /** The tokens one row contributes to label l: none unless it is kept and has label l. */
  function TokensOfRow(row: Row, l: int): seq<string>
  {
    if KeepRow(row) && LabelOf(row.polarity) == Some(l) then Tokens(row.text.value) else []
  }

  lemma {:induction false} ExplodeAppend(a: seq<Row>, b: seq<Row>)
    ensures Explode(a + b) == Explode(a) + Explode(b)
  {
    if a == [] {
      assert a + b == b;
    } else {
      var head := match a[0].text
        case None => []
        case Some(t) => Labelled(LabelOf(a[0].polarity), Tokens(t));
      assert (a + b)[1..] == a[1..] + b;
      assert (a + b)[0] == a[0];
      ExplodeAppend(a[1..], b);
      ConcatAssoc(head, Explode(a[1..]), Explode(b));
    }
  }

  lemma {:induction false} WithLabelAppend(a: seq<WordRow>, b: seq<WordRow>, l: int)
    ensures WithLabel(a + b, l) == WithLabel(a, l) + WithLabel(b, l)
  {
    if a == [] {
      assert a + b == b;
    } else {
      var head := if a[0].wordLabel == Some(l) then [a[0].word] else [];
      assert (a + b)[1..] == a[1..] + b;
      assert (a + b)[0] == a[0];
      WithLabelAppend(a[1..], b, l);
      ConcatAssoc(head, WithLabel(a[1..], l), WithLabel(b, l));
    }
  }

  lemma {:induction false} WithLabelOfLabelled(lab: Option<int>, ws: seq<string>, l: int)
    ensures WithLabel(Labelled(lab, ws), l) == if lab == Some(l) then ws else []
  {
    if ws != [] {
      assert Labelled(lab, ws)[1..] == Labelled(lab, ws[1..]);
      WithLabelOfLabelled(lab, ws[1..], l);
    }
  }

  /** What one row contributes to the word stream of label l. */
  lemma {:induction false} ExplodeHead(row: Row, l: int)
    ensures WithLabel(Explode(if KeepRow(row) then [row] else []), l)
         == TokensOfRow(row, l)
  {
    if KeepRow(row) {
      var ws := Labelled(LabelOf(row.polarity), Tokens(row.text.value));
      assert [row][1..] == [];
      assert Explode([row]) == ws + [];
      assert ws + [] == ws;
      WithLabelOfLabelled(LabelOf(row.polarity), Tokens(row.text.value), l);
    }
  }

  /** The dataframe chain counts, for label l, exactly the tokens of the kept rows of label l. */
  lemma {:induction false} LabelWordsAreRowTokens(rows: seq<Row>, l: int)
    ensures LabelWords(rows, l) == RowTokens(rows, l)
  {
    if rows != [] {
      LabelWordsAreRowTokens(rows[1..], l);
      var head := if KeepRow(rows[0]) then [rows[0]] else [];
      var rest := Filtered(rows[1..]);
      assert Filtered(rows) == head + rest;
      ExplodeAppend(head, rest);
      WithLabelAppend(Explode(head), Explode(rest), l);
      ExplodeHead(rows[0], l);
    }
  }

  lemma {:induction false} RowTokensIgnoreTitles(rows: seq<Row>, other: seq<Row>, l: int)
    requires |rows| == |other|
    requires forall i :: 0 <= i < |rows| ==> rows[i].polarity == other[i].polarity && rows[i].text == other[i].text
    ensures RowTokens(rows, l) == RowTokens(other, l)
  {
    if rows != [] {
      RowTokensIgnoreTitles(rows[1..], other[1..], l);
    }
  }

  /** Only _c2 is tokenized: rows that differ only in their title count the same words. */
  lemma {:induction false} TitlesAreIgnored(rows: seq<Row>, other: seq<Row>, l: int)
    requires |rows| == |other|
    requires forall i :: 0 <= i < |rows| ==> rows[i].polarity == other[i].polarity && rows[i].text == other[i].text
    ensures LabelWords(rows, l) == LabelWords(other, l)
  {
    LabelWordsAreRowTokens(rows, l);
    LabelWordsAreRowTokens(other, l);
    RowTokensIgnoreTitles(rows, other, l);
  }

  /** A dropped row contributes nothing, whatever the rows around it. */
  lemma {:induction false} DroppedRowIsIgnored(before: seq<Row>, row: Row, after: seq<Row>, l: int)
    requires !KeepRow(row)
    ensures LabelWords(before + [row] + after, l) == LabelWords(before + after, l)
  {
    var tail := [row] + after;
    assert before + [row] + after == before + tail;
    assert tail[1..] == after;
    assert RowTokens(tail, l) == [] + RowTokens(after, l);
    RowTokensAppend(before, tail, l);
    RowTokensAppend(before, after, l);
    LabelWordsAreRowTokens(before + tail, l);
    LabelWordsAreRowTokens(before + after, l);
  }

  lemma {:induction false} RowTokensAppend(a: seq<Row>, b: seq<Row>, l: int)
    ensures RowTokens(a + b, l) == RowTokens(a, l) + RowTokens(b, l)
  {
    if a == [] {
      assert a + b == b;
    } else {
      var head := TokensOfRow(a[0], l);
      assert (a + b)[1..] == a[1..] + b;
      assert (a + b)[0] == a[0];
      RowTokensAppend(a[1..], b, l);
      ConcatAssoc(head, RowTokens(a[1..], l), RowTokens(b, l));
    }
  }

  predicate DistinctWords(es: seq<Entry>) {
    forall i, j :: 0 <= i < j < |es| ==> es[i].word != es[j].word
  }

  /** Lines 50 and 53, groupBy("word").count(): one entry per distinct word with its number of occurrences. */
  function CountWords(ws: seq<string>): (r: seq<Entry>)
    ensures DistinctWords(r)
    ensures forall i :: 0 <= i < |r| ==> r[i].word in ws && r[i].count == multiset(ws)[r[i].word]
  {
    var d := FirstSeen(ws);
    assert forall i :: 0 <= i < |d| ==> d[i] in ws by {
      forall i | 0 <= i < |d| ensures d[i] in ws {
        FirstSeenMember(ws, d[i]);
      }
    }
    seq(|d|, i requires 0 <= i < |d| => Entry(d[i], multiset(ws)[d[i]]))
  }

  /** Every word of the stream has its entry. */
  lemma {:induction false} CountWordsCovers(ws: seq<string>, w: string)
    requires w in ws
    ensures exists i :: 0 <= i < |CountWords(ws)| && CountWords(ws)[i].word == w
  {
    FirstSeenMember(ws, w);
    var d := FirstSeen(ws);
    var k :| 0 <= k < |d| && d[k] == w;
    assert CountWords(ws)[k].word == w;
  }

  /**
   * Lines 49-54: r is a possible value of the top list of label l.
   * orderBy(desc("count")).limit(30) fixes no order among equal counts,
   * so the list is specified by IsTopK rather than computed.
   */
  predicate IsTopWords(rows: seq<Row>, l: int, r: seq<Entry>) {
    IsTopK(CountWords(LabelWords(rows, l)), TopN, r)
  }

  /** Counter.most_common's ranking is one of the lists Spark may return. */
  lemma {:induction false} TopWordsExist(rows: seq<Row>, l: int)
    ensures IsTopWords(rows, l, MostCommon(CountWords(LabelWords(rows, l)), TopN))
  {
  }

  predicate Listed(r: seq<Entry>, w: string) {
    exists j :: 0 <= j < |r| && r[j].word == w
  }

  lemma {:induction false} RepeatedCount(r: seq<Entry>, i: nat, j: nat)
    requires i < j < |r| && r[i] == r[j]
    ensures multiset(r)[r[i]] >= 2
  {
    assert r == r[..j] + [r[j]] + r[j + 1..];
    assert r[i] in r[..j];
  }

  lemma {:induction false} DistinctCount(s: seq<Entry>, e: Entry)
    requires DistinctWords(s)
    ensures multiset(s)[e] <= 1
  {
    if s != [] {
      var init := s[..|s| - 1];
      assert s == init + [s[|s| - 1]];
      DistinctCount(init, e);
    }
  }

  /** Every entry of a top list is an entry of the word counts. */
  lemma {:induction false} TopEntriesAreCounts(s: seq<Entry>, r: seq<Entry>)
    requires IsTopK(s, TopN, r)
    ensures forall i :: 0 <= i < |r| ==> r[i] in s
  {
    forall i | 0 <= i < |r| ensures r[i] in s {
      assert r[i] in multiset(r);
    }
  }

  /** A top list of distinct-word counts lists no word twice. */
  lemma {:induction false} TopWordsDistinct(s: seq<Entry>, r: seq<Entry>)
    requires IsTopK(s, TopN, r) && DistinctWords(s)
    ensures DistinctWords(r)
  {
    TopEntriesAreCounts(s, r);
    forall i, j | 0 <= i < j < |r| ensures r[i].word != r[j].word {
      if r[i].word == r[j].word {
        var a :| 0 <= a < |s| && s[a] == r[i];
        var b :| 0 <= b < |s| && s[b] == r[j];
        assert a == b;
        RepeatedCount(r, i, j);
        DistinctCount(s, r[i]);
        assert false;
      }
    }
  }

  /** No unlisted word of the stream has a higher count than a listed one. */
  lemma {:induction false} TopWordsExclude(ws: seq<string>, r: seq<Entry>)
    requires IsTopK(CountWords(ws), TopN, r)
    ensures forall w, i :: w in ws && !Listed(r, w) && 0 <= i < |r| ==> multiset(ws)[w] <= r[i].count
  {
    var s := CountWords(ws);
    forall w, i | w in ws && !Listed(r, w) && 0 <= i < |r| ensures multiset(ws)[w] <= r[i].count {
      CountWordsCovers(ws, w);
      var k :| 0 <= k < |s| && s[k].word == w;
      assert s[k] !in r;
    }
  }

  /** A top list has fewer than 30 entries only when it lists every word of the label. */
  lemma {:induction false} TopWordsShort(rows: seq<Row>, l: int, r: seq<Entry>, w: string)
    requires IsTopWords(rows, l, r)
    requires |r| < TopN && w in LabelWords(rows, l)
    ensures Listed(r, w)
  {
    var cs := CountWords(LabelWords(rows, l));
    CountWordsCovers(LabelWords(rows, l), w);
    var i :| 0 <= i < |cs| && cs[i].word == w;
    TopKShort(cs, TopN, r, cs[i]);
    var j :| 0 <= j < |r| && r[j] == cs[i];
  }

  /**
   * Any top list of label l: at most 30 entries, counts non-increasing,
   * distinct words, each count the number of occurrences of its word in the
   * label's token stream, and no unlisted word with a higher count than a
   * listed one.
   */
  lemma {:induction false} TopWordsFacts(rows: seq<Row>, l: int, r: seq<Entry>)
    requires IsTopWords(rows, l, r)
    ensures |r| <= TopN
    ensures NonIncreasing(r)
    ensures DistinctWords(r)
    ensures forall i :: 0 <= i < |r| ==> r[i].count == multiset(LabelWords(rows, l))[r[i].word] >= 1
    ensures forall w, i :: w in LabelWords(rows, l) && !Listed(r, w) && 0 <= i < |r| ==>
              multiset(LabelWords(rows, l))[w] <= r[i].count
  {
    var ws := LabelWords(rows, l);
    TopEntriesAreCounts(CountWords(ws), r);
    TopWordsDistinct(CountWords(ws), r);
    TopWordsExclude(ws, r);
  }

  /** A row of the combined output: the columns (sentiment, word, count). */
  datatype Tagged = Tagged(sentiment: string, word: string, count: int)

  /** Lines 75-76: withColumn("sentiment", lit(sentiment)). */
  function Tag(sentiment: string, es: seq<Entry>): (r: seq<Tagged>)
    ensures |r| == |es|
    ensures forall i :: 0 <= i < |es| ==> r[i] == Tagged(sentiment, es[i].word, es[i].count)
  {
    seq(|es|, i requires 0 <= i < |es| => Tagged(sentiment, es[i].word, es[i].count))
  }

  /** Lines 75-78: the positive list tagged "positive", then the negative list tagged "negative". */
  function Combined(pos: seq<Entry>, neg: seq<Entry>): (r: seq<Tagged>)
    ensures |r| == |pos| + |neg|
    ensures forall i :: 0 <= i < |pos| ==> r[i] == Tagged("positive", pos[i].word, pos[i].count)
    ensures forall i :: 0 <= i < |neg| ==> r[|pos| + i] == Tagged("negative", neg[i].word, neg[i].count)
  {
    Tag("positive", pos) + Tag("negative", neg)
  }

  /** The entries tagged sentiment, untagged, in order. */
  function Select(r: seq<Tagged>, sentiment: string): seq<Entry>
  {
    if r == [] then []
    else (if r[0].sentiment == sentiment then [Entry(r[0].word, r[0].count)] else []) + Select(r[1..], sentiment)
  }

  lemma {:induction false} SelectAppend(a: seq<Tagged>, b: seq<Tagged>, sentiment: string)
    ensures Select(a + b, sentiment) == Select(a, sentiment) + Select(b, sentiment)
  {
    if a == [] {
      assert a + b == b;
    } else {
      var head := if a[0].sentiment == sentiment then [Entry(a[0].word, a[0].count)] else [];
      assert (a + b)[1..] == a[1..] + b;
      assert (a + b)[0] == a[0];
      SelectAppend(a[1..], b, sentiment);
      ConcatAssoc(head, Select(a[1..], sentiment), Select(b, sentiment));
    }
  }

  lemma {:induction false} SelectTag(t: string, es: seq<Entry>, sentiment: string)
    ensures Select(Tag(t, es), sentiment) == if t == sentiment then es else []
  {
    if es != [] {
      assert Tag(t, es)[1..] == Tag(t, es[1..]);
      SelectTag(t, es[1..], sentiment);
      assert [Entry(es[0].word, es[0].count)] + es[1..] == es;
    }
  }

  /** The combined output splits back into the two lists by its sentiment column. */
  lemma {:induction false} CombinedSplits(pos: seq<Entry>, neg: seq<Entry>)
    ensures Select(Combined(pos, neg), "positive") == pos
    ensures Select(Combined(pos, neg), "negative") == neg
  {
    SelectAppend(Tag("positive", pos), Tag("negative", neg), "positive");
    SelectAppend(Tag("positive", pos), Tag("negative", neg), "negative");
    SelectTag("positive", pos, "positive");
    SelectTag("negative", neg, "positive");
    SelectTag("positive", pos, "negative");
    SelectTag("negative", neg, "negative");
    assert pos + [] == pos;
  }
}
