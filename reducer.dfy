/**
 * The reduce stage (reducer2.py): each input line "sentiment:word<TAB>count"
 * adds count to word_counts[sentiment][word]; malformed lines are skipped.
 * Then, sentiment by sentiment in the order first seen, a header line and
 * the 30 most common words with their counts are printed.
 */
module Reducer {
  import opened Strings
  import opened Ranking

  /** The n of most_common(n), line 27. */
  const TopN: nat := 30

  datatype Record = Record(sentiment: string, word: string, count: int)

  /**
   * Lines 9-21 after the split on tabs: exactly two fields, an integer
   * second field, and a first field split at its first colon.
   */
  function ParseFields(parts: seq<string>): (r: Option<Record>)
    ensures |parts| != 2 ==> r.None?
    ensures |parts| == 2 ==> (r.Some? <==> ParseInt(parts[1]).Some? && ':' in parts[0])
    ensures r.Some? ==>
              && parts[0] == r.value.sentiment + [':'] + r.value.word
              && ':' !in r.value.sentiment
              && ParseInt(parts[1]) == Some(r.value.count)
  {
    if |parts| != 2 then None
    else
      match ParseInt(parts[1])
      case None => None
      case Some(n) =>
        var key := parts[0];
        var i := PrefixLen(key, c => c != ':');
        if i == |key| then
          assert ':' !in key;
          None
        else
          assert key == key[..i] + [':'] + key[i + 1..];
          assert ':' !in key[..i];
          Some(Record(key[..i], key[i + 1..], n))
  }

  /** Lines 9-21: the record of one input line, or None for a line the loop skips. */
  function ParseLine(line: string): (r: Option<Record>)
    ensures multiset(Strip(line, IsPySpace))['\t'] != 1 ==> r.None?
  {
    ParseFields(SplitOn(Strip(line, IsPySpace), '\t'))
  }

  /** A key split at its first colon, with an integer field, reads back as its parts. */
  lemma {:induction false} ParseFieldsWellFormed(s: string, w: string, v: string, n: int)
    requires ':' !in s && ParseInt(v) == Some(n)
    ensures ParseFields([s + [':'] + w, v]) == Some(Record(s, w, n))
  {
    var key := s + [':'] + w;
    PrefixLenAt(key, c => c != ':', |s|);
    assert key[..|s|] == s && key[|s| + 1..] == w;
  }

  /**
   * The converse of ParseFields: a line made of a sentiment without colon,
   * a word (which may contain colons), a tab and an integer parses back to
   * exactly those parts.
   */
  lemma {:induction false} ParseWellFormed(s: string, w: string, v: string, n: int)
    requires ':' !in s && '\t' !in s && '\t' !in w && '\t' !in v
    requires ParseInt(v) == Some(n)
    requires s == [] || !IsPySpace(s[0])
    requires v != [] && !IsPySpace(v[|v| - 1])
    ensures ParseLine(s + [':'] + w + ['\t'] + v) == Some(Record(s, w, n))
  {
    var key := s + [':'] + w;
    var line := key + ['\t'] + v;
    assert line[0] == (if s == [] then ':' else s[0]);
    assert line[|line| - 1] == v[|v| - 1];
    StripNoop(line, IsPySpace);
    assert '\t' !in key;
    SplitOnOne(key, '\t', v);
    ParseFieldsWellFormed(s, w, v, n);
  }

  /** A collections.Counter: a count per word, and the words in insertion order. */
  datatype Counter = Counter(order: seq<string>, counts: map<string, int>)

  /** word_counts, a defaultdict(Counter) keyed by sentiment, with its insertion order. */
  datatype Table = Table(order: seq<string>, counters: map<string, Counter>)

  /** counter[w]: a Counter reads 0 for a word it has not seen. */
  function Count(c: Counter, w: string): int
  {
    if w in c.counts then c.counts[w] else 0
  }

  /** word_counts[s][w], 0 when absent. */
  function Lookup(t: Table, s: string, w: string): int
  {
    if s in t.counters then Count(t.counters[s], w) else 0
  }

  /** counter[w] += n: the word is inserted, at the end of the order, if it was absent. */
  function CounterAdd(c: Counter, w: string, n: int): (r: Counter)
    ensures forall x :: Count(r, x) == Count(c, x) + (if x == w then n else 0)
    ensures r.counts.Keys == c.counts.Keys + {w}
    ensures r.order == if w in c.counts then c.order else c.order + [w]
  {
    if w in c.counts then Counter(c.order, c.counts[w := c.counts[w] + n])
    else Counter(c.order + [w], c.counts[w := n])
  }

  /**
   * Line 22, word_counts[s][w] += n: exactly the entry (s, w) grows by n;
   * a sentiment seen for the first time gets a new, empty Counter first.
   */
  function Add(t: Table, s: string, w: string, n: int): (r: Table)
    ensures forall s', w' :: Lookup(r, s', w') == Lookup(t, s', w') + (if s' == s && w' == w then n else 0)
    ensures r.counters.Keys == t.counters.Keys + {s}
    ensures r.order == if s in t.counters then t.order else t.order + [s]
  {
    var c := if s in t.counters then t.counters[s] else Counter([], map[]);
    var order := if s in t.counters then t.order else t.order + [s];
    Table(order, t.counters[s := CounterAdd(c, w, n)])
  }

  /** The records of the lines that the loop does not skip, in input order. */
  function ParseAll(lines: seq<string>): seq<Record>
  {
    if lines == [] then []
    else
      ParseAll(lines[..|lines| - 1]) +
        match ParseLine(lines[|lines| - 1])
        case None => []
        case Some(r) => [r]
  }

  /** The sum of the counts of the records with key (s, w). */
  function Total(recs: seq<Record>, s: string, w: string): int
  {
    if recs == [] then 0
    else
      var r := recs[|recs| - 1];
      Total(recs[..|recs| - 1], s, w) + if r.sentiment == s && r.word == w then r.count else 0
  }

  function SentimentsOf(recs: seq<Record>): seq<string>
  {
    if recs == [] then [] else SentimentsOf(recs[..|recs| - 1]) + [recs[|recs| - 1].sentiment]
  }

  /** The words of the records of sentiment s, in input order. */
  function WordsOf(recs: seq<Record>, s: string): seq<string>
  {
    if recs == [] then []
    else
      var r := recs[|recs| - 1];
      WordsOf(recs[..|recs| - 1], s) + if r.sentiment == s then [r.word] else []
  }

  /** The counter of sentiment s after the records recs. */
  ghost predicate CounterModels(c: Counter, recs: seq<Record>, s: string) {
    && c.order == FirstSeen(WordsOf(recs, s))
    && (forall w :: w in c.counts <==> w in c.order)
    && (forall w :: w in c.counts ==> c.counts[w] == Total(recs, s, w))
  }

  /**
   * t is word_counts after the records recs: its sentiments and each
   * counter's words in first-seen order, and each count the total of its key.
   */
  ghost predicate Models(t: Table, recs: seq<Record>) {
    && t.order == FirstSeen(SentimentsOf(recs))
    && (forall s :: s in t.counters <==> s in t.order)
    && (forall s :: s in t.counters ==> CounterModels(t.counters[s], recs, s))
  }

  lemma {:induction false} TotalOfUnseenWord(recs: seq<Record>, s: string, w: string)
    requires w !in WordsOf(recs, s)
    ensures Total(recs, s, w) == 0
  {
    if recs != [] {
      TotalOfUnseenWord(recs[..|recs| - 1], s, w);
    }
  }

  lemma {:induction false} WordsOfUnseenSentiment(recs: seq<Record>, s: string)
    requires s !in SentimentsOf(recs)
    ensures WordsOf(recs, s) == []
  {
    if recs != [] {
      WordsOfUnseenSentiment(recs[..|recs| - 1], s);
    }
  }

  lemma {:induction false} SnocRecord(recs: seq<Record>, r: Record)
    ensures SentimentsOf(recs + [r]) == SentimentsOf(recs) + [r.sentiment]
    ensures forall s :: WordsOf(recs + [r], s) == WordsOf(recs, s) + if r.sentiment == s then [r.word] else []
    ensures forall s, w :: Total(recs + [r], s, w) == Total(recs, s, w) + if r.sentiment == s && r.word == w then r.count else 0
  {
    assert (recs + [r])[..|recs|] == recs;
  }

  /** The total after one more record. */
  lemma {:induction false} TotalSnoc(recs: seq<Record>, r: Record, s: string, w: string)
    ensures Total(recs + [r], s, w) == Total(recs, s, w) + if r.sentiment == s && r.word == w then r.count else 0
  {
    assert (recs + [r])[..|recs|] == recs;
  }

  lemma {:induction false} WordsOfSnoc(recs: seq<Record>, r: Record, s: string)
    ensures WordsOf(recs + [r], s) == WordsOf(recs, s) + if r.sentiment == s then [r.word] else []
  {
    assert (recs + [r])[..|recs|] == recs;
  }

  /** After a record, its counter lists the sentiment's words in first-seen order. */
  lemma {:induction false} CounterAddOrder(c: Counter, recs: seq<Record>, r: Record)
    requires CounterModels(c, recs, r.sentiment)
    ensures var c' := CounterAdd(c, r.word, r.count);
            && c'.order == FirstSeen(WordsOf(recs + [r], r.sentiment))
            && forall w :: w in c'.counts <==> w in c'.order
  {
    WordsOfSnoc(recs, r, r.sentiment);
    FirstSeenSnoc(WordsOf(recs, r.sentiment), r.word);
    if r.word !in c.counts {
      FirstSeenMember(WordsOf(recs, r.sentiment), r.word);
    }
  }

  /** After a record, a word of its counter holds its total. */
  lemma {:induction false} CounterAddCount(c: Counter, recs: seq<Record>, r: Record, w: string)
    requires CounterModels(c, recs, r.sentiment)
    requires w in CounterAdd(c, r.word, r.count).counts
    ensures CounterAdd(c, r.word, r.count).counts[w] == Total(recs + [r], r.sentiment, w)
  {
    var c' := CounterAdd(c, r.word, r.count);
    TotalSnoc(recs, r, r.sentiment, w);
    assert c'.counts[w] == Count(c', w);
    if w !in c.counts {
      assert w == r.word;
      FirstSeenMember(WordsOf(recs, r.sentiment), w);
      TotalOfUnseenWord(recs, r.sentiment, w);
    }
  }

  lemma {:induction false} CounterAddModels(c: Counter, recs: seq<Record>, r: Record)
    requires CounterModels(c, recs, r.sentiment)
    ensures CounterModels(CounterAdd(c, r.word, r.count), recs + [r], r.sentiment)
  {
    var c' := CounterAdd(c, r.word, r.count);
    CounterAddOrder(c, recs, r);
    forall w | w in c'.counts ensures c'.counts[w] == Total(recs + [r], r.sentiment, w) {
      CounterAddCount(c, recs, r, w);
    }
  }

  lemma {:induction false} CounterOtherModels(c: Counter, recs: seq<Record>, s: string, r: Record)
    requires CounterModels(c, recs, s) && s != r.sentiment
    ensures CounterModels(c, recs + [r], s)
  {
    SnocRecord(recs, r);
    assert WordsOf(recs + [r], s) == WordsOf(recs, s) + [];
    assert WordsOf(recs, s) + [] == WordsOf(recs, s);
  }

  /** The counter of the record's own sentiment after the record. */
  lemma {:induction false} AddOwnModels(t: Table, recs: seq<Record>, r: Record)
    requires Models(t, recs)
    ensures CounterModels(Add(t, r.sentiment, r.word, r.count).counters[r.sentiment], recs + [r], r.sentiment)
  {
    if r.sentiment !in t.counters {
      FirstSeenMember(SentimentsOf(recs), r.sentiment);
      WordsOfUnseenSentiment(recs, r.sentiment);
      assert CounterModels(Counter([], map[]), recs, r.sentiment);
      CounterAddModels(Counter([], map[]), recs, r);
    } else {
      CounterAddModels(t.counters[r.sentiment], recs, r);
    }
  }

  /** The table's sentiments after the record, in first-seen order. */
  lemma {:induction false} AddOrderModels(t: Table, recs: seq<Record>, r: Record)
    requires Models(t, recs)
    ensures var t' := Add(t, r.sentiment, r.word, r.count);
            && t'.order == FirstSeen(SentimentsOf(recs + [r]))
            && forall s :: s in t'.counters <==> s in t'.order
  {
    SnocRecord(recs, r);
    FirstSeenSnoc(SentimentsOf(recs), r.sentiment);
    if r.sentiment !in t.counters {
      FirstSeenMember(SentimentsOf(recs), r.sentiment);
    }
  }

  /** The counters of the other sentiments after the record. */
  lemma {:induction false} AddOthersModels(t: Table, recs: seq<Record>, r: Record)
    requires Models(t, recs)
    ensures var t' := Add(t, r.sentiment, r.word, r.count);
            forall s :: s in t'.counters && s != r.sentiment ==> CounterModels(t'.counters[s], recs + [r], s)
  {
    var t' := Add(t, r.sentiment, r.word, r.count);
    forall s | s in t'.counters && s != r.sentiment
      ensures CounterModels(t'.counters[s], recs + [r], s)
    {
      CounterOtherModels(t.counters[s], recs, s, r);
    }
  }

  /** One more record keeps Models: the step of the loop of lines 8-22. */
  lemma {:induction false} AddModels(t: Table, recs: seq<Record>, r: Record)
    requires Models(t, recs)
    ensures Models(Add(t, r.sentiment, r.word, r.count), recs + [r])
  {
    AddOrderModels(t, recs, r);
    AddOwnModels(t, recs, r);
    AddOthersModels(t, recs, r);
  }

  /** Models fixes every entry: each (s, w) reads the total of its key. */
  lemma {:induction false} ModelsLookup(t: Table, recs: seq<Record>)
    requires Models(t, recs)
    ensures forall s, w :: Lookup(t, s, w) == Total(recs, s, w)
  {
    forall s, w ensures Lookup(t, s, w) == Total(recs, s, w) {
      if s !in t.counters {
        FirstSeenMember(SentimentsOf(recs), s);
        WordsOfUnseenSentiment(recs, s);
        TotalOfUnseenWord(recs, s, w);
      } else if w !in t.counters[s].counts {
        FirstSeenMember(WordsOf(recs, s), w);
        TotalOfUnseenWord(recs, s, w);
      }
    }
  }

  lemma {:induction false} ParseAllSnoc(lines: seq<string>, i: nat)
    requires i < |lines|
    ensures ParseAll(lines[..i + 1]) == ParseAll(lines[..i]) + match ParseLine(lines[i]) case None => [] case Some(r) => [r]
  {
    assert lines[..i + 1][..i] == lines[..i];
  }

  /** A line the loop skips leaves the table as it was. */
  lemma {:induction false} SkipModels(t: Table, lines: seq<string>, i: nat)
    requires i < |lines| && ParseLine(lines[i]).None?
    requires Models(t, ParseAll(lines[..i]))
    ensures Models(t, ParseAll(lines[..i + 1]))
  {
    ghost var before := ParseAll(lines[..i]);
    ParseAllSnoc(lines, i);
    assert ParseAll(lines[..i + 1]) == before + [];
    assert before + [] == before;
  }

  /** A line the loop accepts adds its count to its own entry. */
  lemma {:induction false} StepModels(t: Table, lines: seq<string>, i: nat)
    requires i < |lines| && ParseLine(lines[i]).Some?
    requires Models(t, ParseAll(lines[..i]))
    ensures var r := ParseLine(lines[i]).value;
            Models(Add(t, r.sentiment, r.word, r.count), ParseAll(lines[..i + 1]))
  {
    ParseAllSnoc(lines, i);
    AddModels(t, ParseAll(lines[..i]), ParseLine(lines[i]).value);
  }

  /** Lines 5-22: the table built from all input lines. */
  method Reduce(lines: seq<string>) returns (t: Table)
    ensures Models(t, ParseAll(lines))
    ensures forall s, w :: Lookup(t, s, w) == Total(ParseAll(lines), s, w)
  {
    t := Table([], map[]);
    for i := 0 to |lines|
      invariant Models(t, ParseAll(lines[..i]))
    {
      var parsed := ParseLine(lines[i]);
      if parsed.Some? {
        var r := parsed.value;
        StepModels(t, lines, i);
        t := Add(t, r.sentiment, r.word, r.count);
      } else {
        SkipModels(t, lines, i);
      }
    }
    assert lines[..|lines|] == lines;
    ModelsLookup(t, ParseAll(lines));
  }

  lemma {:induction false} TotalAppend(a: seq<Record>, b: seq<Record>, s: string, w: string)
    ensures Total(a + b, s, w) == Total(a, s, w) + Total(b, s, w)
    decreases |b|
  {
    if b == [] {
      assert a + b == a;
    } else {
      assert (a + b)[..|a + b| - 1] == a + b[..|b| - 1];
      TotalAppend(a, b[..|b| - 1], s, w);
    }
  }

  /** A single line that parses yields its one record. */
  lemma {:induction false} ParseAllOfLine(line: string, r: Record)
    requires ParseLine(line) == Some(r)
    ensures ParseAll([line]) == [r]
  {
    var none: seq<string> := [];
    assert [line][..0] == none;
    assert ParseAll([line]) == ParseAll(none) + [r];
  }

  lemma {:induction false} ParseAllSnocLine(c: seq<string>, x: string)
    ensures ParseAll(c + [x]) == ParseAll(c) + ParseAll([x])
  {
    assert (c + [x])[..|c|] == c;
    assert [x][..0] == [];
  }

  lemma {:induction false} ParseAllAppend(a: seq<string>, b: seq<string>)
    ensures ParseAll(a + b) == ParseAll(a) + ParseAll(b)
    decreases |b|
  {
    if b == [] {
      assert a + b == a;
    } else {
      var init, x := b[..|b| - 1], b[|b| - 1];
      assert a + b == (a + init) + [x] && b == init + [x];
      ParseAllSnocLine(a + init, x);
      ParseAllAppend(a, init);
      ParseAllSnocLine(init, x);
      ConcatAssoc(ParseAll(a), ParseAll(init), ParseAll([x]));
    }
  }

  /**
   * Partial tables merge by addition: the totals of a + b are the totals
   * of a plus the totals of b, for every key.
   */
  lemma {:induction false} MergeTotals(a: seq<string>, b: seq<string>, s: string, w: string)
    ensures Total(ParseAll(a + b), s, w) == Total(ParseAll(a), s, w) + Total(ParseAll(b), s, w)
  {
    ParseAllAppend(a, b);
    TotalAppend(ParseAll(a), ParseAll(b), s, w);
  }

  /** Taking line j out of b takes its own totals out. */
  lemma {:induction false} TotalsWithout(b: seq<string>, j: nat, s: string, w: string)
    requires j < |b|
    ensures Total(ParseAll(b), s, w) == Total(ParseAll(b[..j] + b[j + 1..]), s, w) + Total(ParseAll([b[j]]), s, w)
  {
    var left, x, right := b[..j], b[j], b[j + 1..];
    assert b == left + [x] + right;
    MergeTotals(left + [x], right, s, w);
    MergeTotals(left, [x], s, w);
    MergeTotals(left, right, s, w);
  }

  /** The last line of a has a match in b; without the two, a and b still hold the same lines. */
  lemma {:induction false} MatchLast(a: seq<string>, b: seq<string>) returns (j: nat)
    requires multiset(a) == multiset(b) && a != []
    ensures j < |b| && b[j] == a[|a| - 1]
    ensures multiset(a[..|a| - 1]) == multiset(b[..j] + b[j + 1..])
  {
    var init, x := a[..|a| - 1], a[|a| - 1];
    assert a == init + [x];
    assert multiset(init) == multiset(a) - multiset{x};
    assert x in multiset(b);
    j :| 0 <= j < |b| && b[j] == x;
    assert b == b[..j] + [x] + b[j + 1..];
    assert multiset(b[..j] + b[j + 1..]) == multiset(b) - multiset{x};
  }

  /** The totals do not depend on the order of the input lines. */
  lemma {:induction false} TotalsIgnoreLineOrder(a: seq<string>, b: seq<string>, s: string, w: string)
    requires multiset(a) == multiset(b)
    ensures Total(ParseAll(a), s, w) == Total(ParseAll(b), s, w)
    decreases |a|
  {
    if a == [] {
      assert b == [] by {
        assert |b| == |multiset(b)|;
      }
    } else {
      var init, x := a[..|a| - 1], a[|a| - 1];
      var j := MatchLast(a, b);
      var rest := b[..j] + b[j + 1..];
      calc {
        Total(ParseAll(a), s, w);
        { SnocSplit(a); MergeTotals(init, [x], s, w); }
        Total(ParseAll(init), s, w) + Total(ParseAll([x]), s, w);
        { TotalsIgnoreLineOrder(init, rest, s, w); }
        Total(ParseAll(rest), s, w) + Total(ParseAll([x]), s, w);
        { TotalsWithout(b, j, s, w); }
        Total(ParseAll(b), s, w);
      }
    }
  }

  /** The counter's items, (word, count), in insertion order. */
  function Items(c: Counter): (items: seq<Entry>)
    ensures |items| == |c.order|
    ensures forall i :: 0 <= i < |items| ==> items[i] == Entry(c.order[i], Count(c, c.order[i]))
  {
    seq(|c.order|, i requires 0 <= i < |c.order| => Entry(c.order[i], Count(c, c.order[i])))
  }

  /**
   * Under Models, the items ranked for sentiment s are its distinct words
   * in first-seen order, each with its total: the ties MostCommon keeps in
   * order are in first-encountered order.
   */
  lemma {:induction false} RankedItems(t: Table, recs: seq<Record>, s: string)
    requires Models(t, recs) && s in t.counters
    ensures |Items(t.counters[s])| == |FirstSeen(WordsOf(recs, s))|
    ensures forall i :: 0 <= i < |Items(t.counters[s])| ==>
              Items(t.counters[s])[i] == Entry(FirstSeen(WordsOf(recs, s))[i], Total(recs, s, FirstSeen(WordsOf(recs, s))[i]))
  {
  }

  /**
   * Under Models, every ranked entry of sentiment s is one of its words,
   * listed with the total of its key.
   */
  lemma {:induction false} RankedTotals(t: Table, recs: seq<Record>, s: string)
    requires Models(t, recs) && s in t.counters
    ensures var top := MostCommon(Items(t.counters[s]), TopN);
            forall i :: 0 <= i < |top| ==> top[i].word in WordsOf(recs, s) && top[i].count == Total(recs, s, top[i].word)
  {
    var c := t.counters[s];
    var items := Items(c);
    var top := MostCommon(items, TopN);
    forall i | 0 <= i < |top| ensures top[i].word in WordsOf(recs, s) && top[i].count == Total(recs, s, top[i].word) {
      assert top[i] in multiset(top);
      var k :| 0 <= k < |items| && items[k] == top[i];
      assert c.order[k] in c.order;
      FirstSeenMember(WordsOf(recs, s), c.order[k]);
    }
  }

  /** Line 26: the fixed title, then the sentiment, then a colon. */
  function Header(s: string): (h: string)
    ensures |h| == |s| + 18
    ensures h[..17] == "Top 30 words for " && h[17..|h| - 1] == s && h[|h| - 1] == ':'
  {
    "Top 30 words for " + s + ":"
  }

  /** Line 28: the word, a tab, the count in decimal. */
  function EntryLine(e: Entry): string
  {
    e.word + "\t" + IntToString(e.count)
  }

  /** A report line for a word without tabs splits into the word and a field int() reads as the count. */
  lemma {:induction false} EntryLineFields(e: Entry)
    requires '\t' !in e.word
    ensures SplitOn(EntryLine(e), '\t') == [e.word, IntToString(e.count)]
    ensures ParseInt(SplitOn(EntryLine(e), '\t')[1]) == Some(e.count)
  {
    var n := IntToString(e.count);
    var d := NatToString(if e.count < 0 then -e.count else e.count);
    assert '\t' !in d by {
      assert forall i :: 0 <= i < |d| ==> IsDigit(d[i]);
    }
    assert '\t' !in n by {
      if e.count < 0 {
        assert n == "-" + d;
      }
    }
    assert EntryLine(e) == e.word + ['\t'] + n;
    SplitOnOne(e.word, '\t', n);
    IntToStringRoundTrip(e.count);
  }

  function EntryLines(es: seq<Entry>): (lines: seq<string>)
    ensures |lines| == |es|
    ensures forall i :: 0 <= i < |es| ==> lines[i] == EntryLine(es[i])
  {
    seq(|es|, i requires 0 <= i < |es| => EntryLine(es[i]))
  }

  /** Lines 26-28 for one sentiment: its header, then at most TopN ranked words. */
  function Block(s: string, c: Counter): (lines: seq<string>)
    ensures 1 <= |lines| <= 1 + TopN
    ensures |lines| == 1 + Min(TopN, |c.order|)
    ensures lines[0] == Header(s)
    ensures lines[1..] == EntryLines(MostCommon(Items(c), TopN))
  {
    [Header(s)] + EntryLines(MostCommon(Items(c), TopN))
  }

  predicate HasCounters(t: Table, keys: seq<string>) {
    forall i :: 0 <= i < |keys| ==> keys[i] in t.counters
  }

  /** The blocks of the sentiments keys, one after the other. */
  function Layout(t: Table, keys: seq<string>): seq<string>
    requires HasCounters(t, keys)
  {
    if keys == [] then []
    else Layout(t, keys[..|keys| - 1]) + Block(keys[|keys| - 1], t.counters[keys[|keys| - 1]])
  }

  lemma {:induction false} EntryLinesSnoc(es: seq<Entry>, j: nat)
    requires j < |es|
    ensures EntryLines(es[..j + 1]) == EntryLines(es[..j]) + [EntryLine(es[j])]
  {
    var a, b := EntryLines(es[..j + 1]), EntryLines(es[..j]) + [EntryLine(es[j])];
    forall i | 0 <= i < |a| ensures a[i] == b[i] {
      assert a[i] == EntryLine(es[..j + 1][i]) && es[..j + 1][i] == es[i];
      if i < j {
        assert b[i] == EntryLines(es[..j])[i] == EntryLine(es[..j][i]);
        assert es[..j][i] == es[i];
      }
    }
  }

  /** The table Reduce builds has a counter for every sentiment it lists. */
  lemma {:induction false} ModelsHasCounters(t: Table, recs: seq<Record>)
    requires Models(t, recs)
    ensures HasCounters(t, t.order)
  {
    forall i | 0 <= i < |t.order| ensures t.order[i] in t.counters {
      assert t.order[i] in t.order;
    }
  }

  /** The layout of one more sentiment: its block after the others. */
  lemma {:induction false} LayoutSnoc(t: Table, keys: seq<string>, i: nat)
    requires HasCounters(t, keys) && i < |keys|
    ensures HasCounters(t, keys[..i]) && HasCounters(t, keys[..i + 1])
    ensures Layout(t, keys[..i + 1]) == Layout(t, keys[..i]) + Block(keys[i], t.counters[keys[i]])
  {
    assert keys[..i + 1][..i] == keys[..i];
    assert keys[..i + 1][i] == keys[i];
  }

  /** Lines 25-28 for one sentiment: the header, then one line per ranked word. */
  method PrintBlock(s: string, c: Counter) returns (lines: seq<string>)
    ensures lines == Block(s, c)
  {
    var top := MostCommon(Items(c), TopN);
    lines := [Header(s)];
    for j := 0 to |top|
      invariant lines == [Header(s)] + EntryLines(top[..j])
    {
      EntryLinesSnoc(top, j);
      ConcatAssoc([Header(s)], EntryLines(top[..j]), [EntryLine(top[j])]);
      lines := lines + [EntryLine(top[j])];
    }
    assert top[..|top|] == top;
  }

  /** Lines 25-28: the printed report, sentiment by sentiment in the table's order. */
  method Report(t: Table) returns (out: seq<string>)
    requires HasCounters(t, t.order)
    ensures out == Layout(t, t.order)
  {
    out := [];
    for i := 0 to |t.order|
      invariant HasCounters(t, t.order[..i])
      invariant out == Layout(t, t.order[..i])
    {
      var s := t.order[i];
      LayoutSnoc(t, t.order, i);
      var block := PrintBlock(s, t.counters[s]);
      out := out + block;
    }
    assert t.order[..|t.order|] == t.order;
  }

  /** The whole script, lines 5-28: read every line, then print the report of what was read. */
  method RunReducer(lines: seq<string>) returns (t: Table, out: seq<string>)
    ensures Models(t, ParseAll(lines))
    ensures t.order == FirstSeen(SentimentsOf(ParseAll(lines)))
    ensures forall s, w :: Lookup(t, s, w) == Total(ParseAll(lines), s, w)
    ensures HasCounters(t, t.order)
    ensures out == Layout(t, t.order)
  {
    t := Reduce(lines);
    ModelsHasCounters(t, ParseAll(lines));
    out := Report(t);
  }
}
