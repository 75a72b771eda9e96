/**
 * Character classes and the string operations of the Python and Spark
 * runtimes that the three scripts rely on, restricted to ASCII.
 */
module Strings {

  datatype Option<T> = None | Some(value: T)

  /** Python's str.isspace() on ASCII: the characters str.strip() and int() discard. */
  predicate IsPySpace(c: char) {
    c == ' ' || ('\t' <= c <= '\r') || ('\U{1C}' <= c <= '\U{1F}')
  }

  /** The Java regular-expression class \s: space, tab, newline, vertical tab, form feed, return. */
  predicate IsJavaSpace(c: char) {
    c == ' ' || ('\t' <= c <= '\r')
  }

  predicate IsDigit(c: char) { '0' <= c <= '9' }

  predicate IsUpper(c: char) { 'A' <= c <= 'Z' }

  predicate IsLower(c: char) { 'a' <= c <= 'z' }

  predicate IsAsciiLetter(c: char) { IsUpper(c) || IsLower(c) }

  /** str.lower() / Spark lower() on one ASCII character. */
  function LowerChar(c: char): (d: char)
    ensures !IsUpper(d)
    ensures IsAsciiLetter(c) <==> IsAsciiLetter(d)
    ensures IsDigit(c) <==> IsDigit(d)
    ensures !IsUpper(c) ==> d == c
  {
    if IsUpper(c) then (c as int + 32) as char else c
  }

  function Lower(s: string): (r: string)
    ensures |r| == |s|
    ensures forall i :: 0 <= i < |s| ==> r[i] == LowerChar(s[i])
  {
    seq(|s|, i requires 0 <= i < |s| => LowerChar(s[i]))
  }

  lemma {:induction false} LowerAppend(a: string, b: string)
    ensures Lower(a + b) == Lower(a) + Lower(b)
  {
    assert forall i :: 0 <= i < |a + b| ==> Lower(a + b)[i] == (Lower(a) + Lower(b))[i];
  }

  lemma {:induction false} ConcatAssoc<T>(a: seq<T>, b: seq<T>, c: seq<T>)
    ensures (a + b) + c == a + (b + c)
  {
  }

  lemma {:induction false} SnocSplit<T>(a: seq<T>)
    requires a != []
    ensures a == a[..|a| - 1] + [a[|a| - 1]]
  {
  }

  /** Length of the longest prefix of s whose characters all satisfy p. */
  function PrefixLen(s: string, p: char -> bool): (n: nat)
    ensures n <= |s|
    ensures forall i :: 0 <= i < n ==> p(s[i])
    ensures n < |s| ==> !p(s[n])
    decreases |s|
  {
    if s != [] && p(s[0]) then 1 + PrefixLen(s[1..], p) else 0
  }

  /** Length of the longest suffix of s whose characters all satisfy p. */
  function SuffixLen(s: string, p: char -> bool): (n: nat)
    ensures n <= |s|
    ensures forall i :: |s| - n <= i < |s| ==> p(s[i])
    ensures n < |s| ==> !p(s[|s| - 1 - n])
    decreases |s|
  {
    if s != [] && p(s[|s| - 1]) then 1 + SuffixLen(s[..|s| - 1], p) else 0
  }

  /** `r` is the slice of `s` starting at `i`, and every character of `s`
      outside that slice satisfies `p`. */
  ghost predicate StrippedAt(s: string, p: char -> bool, i: int, r: string) {
    0 <= i <= |s| - |r| && r == s[i..i + |r|]
    && (forall k :: 0 <= k < i ==> p(s[k]))
    && (forall k :: i + |r| <= k < |s| ==> p(s[k]))
  }

  /**
   * Removes the leading and trailing characters that satisfy p: Python's
   * str.strip() with p the whitespace test, str.strip('"') with p the quote
   * test, Spark's trim() with p the space test.
   */
  function Strip(s: string, p: char -> bool): (r: string)
    ensures r == [] || (!p(r[0]) && !p(r[|r| - 1]))
    ensures exists i :: StrippedAt(s, p, i, r)
  {
    var n := PrefixLen(s, p);
    var t := s[n..];
    var r := t[..|t| - SuffixLen(t, p)];
    assert r == s[n..n + |r|];
    assert forall k :: n + |r| <= k < |s| ==> p(s[k]) by {
      forall k | n + |r| <= k < |s| ensures p(s[k]) {
        assert s[k] == t[k - n];
      }
    }
    assert StrippedAt(s, p, n, r);
    r
  }

  /** Strip leaves alone a string whose ends do not satisfy p. */
  lemma {:induction false} StripNoop(s: string, p: char -> bool)
    requires s == [] || (!p(s[0]) && !p(s[|s| - 1]))
    ensures Strip(s, p) == s
  {
    PrefixLenAt(s, p, 0);
    if s != [] {
      assert SuffixLen(s, p) == 0;
    }
  }

  /**
   * Strip's result is determined by its shape: a slice of s with ends
   * outside p and only characters in p around it is Strip(s, p).
   */
  lemma {:induction false} StripUnique(s: string, p: char -> bool, i: int, r: string)
    requires StrippedAt(s, p, i, r)
    requires r != [] && !p(r[0]) && !p(r[|r| - 1])
    ensures Strip(s, p) == r
  {
    var q := Strip(s, p);
    var j :| StrippedAt(s, p, j, q);
    assert s[i] == r[0];
    StripEmpty(s, p);
    assert q != [];
    assert s[j] == q[0] && s[j + |q| - 1] == q[|q| - 1];
    assert s[i + |r| - 1] == r[|r| - 1];
    assert i == j;
    assert |q| == |r|;
  }

  /** Strip gives the empty string exactly when every character satisfies p. */
  lemma {:induction false} StripEmpty(s: string, p: char -> bool)
    ensures (forall i :: 0 <= i < |s| ==> p(s[i])) <==> Strip(s, p) == []
  {
    var n := PrefixLen(s, p);
    if n < |s| {
      var t := s[n..];
      assert t[0] == s[n];
      assert SuffixLen(t, p) < |t|;
    }
  }

  /** A non-empty run of ASCII decimal digits. */
  predicate IsDigits(d: string) {
    |d| > 0 && forall i :: 0 <= i < |d| ==> IsDigit(d[i])
  }

  function DigitsValue(d: string): nat
    requires forall i :: 0 <= i < |d| ==> IsDigit(d[i])
    decreases |d|
  {
    if d == [] then 0
    else
      assert IsDigit(d[|d| - 1]);
      10 * DigitsValue(d[..|d| - 1]) + (d[|d| - 1] as int - '0' as int)
  }

  /**
   * Python's int() on a str: surrounding whitespace, an optional sign and
   * decimal digits; None where Python raises ValueError.
   */
  function ParseInt(s: string): (r: Option<int>)
  {
    var t := Strip(s, IsPySpace);
    if IsDigits(t) then Some(DigitsValue(t))
    else if |t| >= 2 && (t[0] == '+' || t[0] == '-') && IsDigits(t[1..]) then
      Some(if t[0] == '-' then -(DigitsValue(t[1..]) as int) else DigitsValue(t[1..]))
    else None
  }

  /** int() accepts surrounding whitespace and a plus sign: int(" +2 ") == 2. */
  lemma {:induction false} ParseIntPadded()
    ensures ParseInt(" +2 ") == Some(2)
  {
    assert " +2 "[1..3] == "+2";
    StripUnique(" +2 ", IsPySpace, 1, "+2");
    assert "+2"[1..] == "2" && DigitsValue("2") == 2;
  }

  /** int("-30") == -30. */
  lemma {:induction false} ParseIntNegative()
    ensures ParseInt("-30") == Some(-30)
  {
    StripNoop("-30", IsPySpace);
    assert "-30"[1..] == "30" && "30"[..1] == "3" && DigitsValue("30") == 30;
  }

  /** Tabs and newlines count as whitespace: int("\t7\n") == 7. */
  lemma {:induction false} ParseIntTabs()
    ensures ParseInt("\t7\n") == Some(7)
  {
    assert "\t7\n"[1..2] == "7";
    StripUnique("\t7\n", IsPySpace, 1, "7");
    assert DigitsValue("7") == 7;
  }

  /** int() refuses a decimal point, an empty string, a bare sign and inner whitespace. */
  lemma {:induction false} ParseIntRejects()
    ensures ParseInt("1.0") == None && ParseInt("") == None
    ensures ParseInt("+") == None && ParseInt("1 2") == None
  {
    StripNoop("1.0", IsPySpace);
    assert !IsDigit("1.0"[1]) && !IsDigit("1.0"[1..][0]);
    StripNoop("+", IsPySpace);
    StripNoop("1 2", IsPySpace);
    assert !IsDigit("1 2"[1]) && !IsDigit("1 2"[1..][0]);
  }

  function DigitChar(d: nat): (c: char)
    requires d < 10
    ensures IsDigit(c) && c as int - '0' as int == d
  {
    ('0' as int + d) as char
  }

  /** Appending a digit multiplies the value by ten and adds the digit. */
  lemma {:induction false} DigitsSnoc(d: string, c: char)
    requires forall i :: 0 <= i < |d| ==> IsDigit(d[i])
    requires IsDigit(c)
    ensures IsDigits(d + [c])
    ensures DigitsValue(d + [c]) == 10 * DigitsValue(d) + (c as int - '0' as int)
  {
    var r := d + [c];
    assert r[..|r| - 1] == d && r[|r| - 1] == c;
  }

  /** str(n) for a non-negative n: its decimal digits. */
  function NatToString(n: nat): (r: string)
    ensures IsDigits(r) && DigitsValue(r) == n
    ensures r[0] == '0' ==> r == "0"
    decreases n
  {
    var init := if n < 10 then [] else NatToString(n / 10);
    var r := init + [DigitChar(n % 10)];
    DigitsSnoc(init, DigitChar(n % 10));
    assert DigitsValue("0") == 0 by {
      assert "0"[..0] == [];
    }
    assert n >= 10 ==> r[0] == init[0];
    r
  }

  /** str(n): Python's decimal rendering, with a minus sign when negative. */
  function IntToString(n: int): string
  {
    if n < 0 then "-" + NatToString(-n) else NatToString(n)
  }

  /** int(str(n)) == n: ParseInt reads back what IntToString writes. */
  lemma {:induction false} IntToStringRoundTrip(n: int)
    ensures ParseInt(IntToString(n)) == Some(n)
  {
    var r := IntToString(n);
    var d := NatToString(if n < 0 then -n else n);
    assert IsDigit(d[|d| - 1]);
    if n < 0 {
      assert r == "-" + d;
      assert r[1..] == d && r[|r| - 1] == d[|d| - 1];
    } else {
      assert r == d;
    }
    StripNoop(r, IsPySpace);
  }

  /** The pieces of s between occurrences of sep, joined back by sep. */
  function JoinWith(parts: seq<string>, sep: char): string
  {
    if |parts| == 0 then []
    else if |parts| == 1 then parts[0]
    else parts[0] + [sep] + JoinWith(parts[1..], sep)
  }

  /**
   * Python's str.split(sep) with an explicit separator: every occurrence
   * splits, so consecutive separators give empty pieces.
   */
  function SplitOn(s: string, sep: char): (parts: seq<string>)
    ensures |parts| == multiset(s)[sep] + 1
    ensures forall i :: 0 <= i < |parts| ==> sep !in parts[i]
    ensures JoinWith(parts, sep) == s
    decreases |s|
  {
    var n := PrefixLen(s, c => c != sep);
    if n == |s| then
      assert sep !in s;
      [s]
    else
      assert s == s[..n] + [sep] + s[n + 1..];
      assert sep !in s[..n];
      var rest := SplitOn(s[n + 1..], sep);
      var parts := [s[..n]] + rest;
      assert parts[1..] == rest;
      parts
  }

  /** The distinct elements of xs in the order of their first occurrence (a dict's key order). */
  function FirstSeen(xs: seq<string>): (r: seq<string>)
    ensures forall i, j :: 0 <= i < j < |r| ==> r[i] != r[j]
  {
    if xs == [] then []
    else
      var d := FirstSeen(xs[..|xs| - 1]);
      if xs[|xs| - 1] in d then d else d + [xs[|xs| - 1]]
  }

  /** FirstSeen keeps every element, and adds none. */
  lemma {:induction false} FirstSeenMember(xs: seq<string>, x: string)
    ensures x in FirstSeen(xs) <==> x in xs
  {
    if xs != [] {
      var init := xs[..|xs| - 1];
      FirstSeenMember(init, x);
      FirstSeenMember(init, xs[|xs| - 1]);
      assert xs == init + [xs[|xs| - 1]];
    }
  }

  /** PrefixLen stops at the first character that fails p. */
  lemma {:induction false} PrefixLenAt(s: string, p: char -> bool, k: nat)
    requires k <= |s|
    requires forall i :: 0 <= i < k ==> p(s[i])
    requires k < |s| ==> !p(s[k])
    ensures PrefixLen(s, p) == k
  {
  }

  /** Splitting at the only separator gives the two sides. */
  lemma {:induction false} SplitOnOne(a: string, sep: char, b: string)
    requires sep !in a && sep !in b
    ensures SplitOn(a + [sep] + b, sep) == [a, b]
  {
    var s := a + [sep] + b;
    PrefixLenAt(s, c => c != sep, |a|);
    assert s[..|a|] == a && s[|a| + 1..] == b;
    assert SplitOn(b, sep) == [b];
  }

  lemma {:induction false} FirstSeenSnoc(xs: seq<string>, x: string)
    ensures FirstSeen(xs + [x]) == if x in FirstSeen(xs) then FirstSeen(xs) else FirstSeen(xs) + [x]
  {
    assert (xs + [x])[..|xs|] == xs;
  }
}
