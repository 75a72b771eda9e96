/**
 * Ranking of (word, count) entries by count. Counter.most_common(n) sorts a
 * counter's items by count, descending, with a stable sort (heapq.nlargest is
 * sorted(...)[:n]), so words with equal counts keep the order in which they
 * were first counted. IsTopK is the weaker reference property that any
 * top-n selection by count meets, whatever order it gives to ties.
 */
module Ranking {
  import opened Strings

  datatype Entry = Entry(word: string, count: int)

  predicate NonIncreasing(s: seq<Entry>) {
    forall i, j :: 0 <= i < j < |s| ==> s[i].count >= s[j].count
  }

  /** The entries of s whose count is c, in their order in s. */
  function WithCount(s: seq<Entry>, c: int): seq<Entry>
  {
    if s == [] then [] else (if s[0].count == c then [s[0]] else []) + WithCount(s[1..], c)
  }

  predicate IsPrefix(a: seq<Entry>, b: seq<Entry>) {
    |a| <= |b| && a == b[..|a|]
  }

  function Min(a: nat, b: nat): nat { if a <= b then a else b }

  /**
   * r is a top-k selection from s: min(k, |s|) entries taken from s, in
   * non-increasing count order, and no entry left out of r has a count
   * above any count listed in r.
   */
  predicate IsTopK(s: seq<Entry>, k: nat, r: seq<Entry>) {
    && |r| == Min(k, |s|)
    && NonIncreasing(r)
    && multiset(r) <= multiset(s)
    && forall e, i :: e in s && e !in r && 0 <= i < |r| ==> e.count <= r[i].count
  }

  /** A top-k selection shorter than k takes every entry. */
  lemma {:induction false} TopKShort(s: seq<Entry>, k: nat, r: seq<Entry>, e: Entry)
    requires IsTopK(s, k, r) && |r| < k && e in s
    ensures e in r
  {
    var rest := multiset(s) - multiset(r);
    assert multiset(s) == multiset(r) + rest;
    assert |rest| == 0;
    assert e in multiset(r);
  }

  lemma {:induction false} WithCountAppend(a: seq<Entry>, b: seq<Entry>, c: int)
    ensures WithCount(a + b, c) == WithCount(a, c) + WithCount(b, c)
  {
    if a == [] {
      assert a + b == b;
    } else {
      var head := if a[0].count == c then [a[0]] else [];
      assert (a + b)[1..] == a[1..] + b;
      assert (a + b)[0] == a[0];
      WithCountAppend(a[1..], b, c);
      ConcatAssoc(head, WithCount(a[1..], c), WithCount(b, c));
    }
  }

  lemma {:induction false} WithCountNone(s: seq<Entry>, c: int)
    requires forall i :: 0 <= i < |s| ==> s[i].count != c
    ensures WithCount(s, c) == []
  {
    if s != [] {
      WithCountNone(s[1..], c);
    }
  }

  /** Inserts x into a sorted list after every entry whose count is at least x's. */
  function Insert(l: seq<Entry>, x: Entry): (r: seq<Entry>)
    ensures |r| == |l| + 1
    ensures multiset(r) == multiset(l) + multiset{x}
    ensures forall i :: 0 <= i < |r| ==> r[i] == x || r[i] in l
    decreases |l|
  {
    if l == [] then [x]
    else if l[0].count < x.count then [x] + l
    else
      assert l == [l[0]] + l[1..];
      [l[0]] + Insert(l[1..], x)
  }

  lemma {:induction false} InsertSorted(l: seq<Entry>, x: Entry)
    requires NonIncreasing(l)
    ensures NonIncreasing(Insert(l, x))
  {
    if l != [] && l[0].count >= x.count {
      InsertSorted(l[1..], x);
      var rest := Insert(l[1..], x);
      forall j | 0 <= j < |rest| ensures rest[j].count <= l[0].count {
        if rest[j] != x {
          var k :| 0 <= k < |l[1..]| && l[1..][k] == rest[j];
          assert l[k + 1] == rest[j];
        }
      }
    }
  }

  /** An entry put in front of a list whose counts are all lower. */
  lemma {:induction false} WithCountFront(l: seq<Entry>, x: Entry, c: int)
    requires NonIncreasing(l) && l != [] && l[0].count < x.count
    ensures WithCount([x] + l, c) == WithCount(l, c) + (if x.count == c then [x] else [])
  {
    assert ([x] + l)[1..] == l;
    if x.count == c {
      WithCountNone(l, c);
    }
  }

  /** An entry kept in front of an insertion further down. */
  lemma {:induction false} WithCountCons(e: Entry, rest: seq<Entry>, c: int)
    ensures WithCount([e] + rest, c) == (if e.count == c then [e] else []) + WithCount(rest, c)
  {
    assert ([e] + rest)[1..] == rest;
  }

  /** The step of InsertWithCount past an entry whose count is at least x's. */
  lemma {:induction false} WithCountPast(l: seq<Entry>, x: Entry, c: int)
    requires l != [] && l[0].count >= x.count
    requires WithCount(Insert(l[1..], x), c) == WithCount(l[1..], c) + (if x.count == c then [x] else [])
    ensures WithCount(Insert(l, x), c) == WithCount(l, c) + (if x.count == c then [x] else [])
  {
    var head := if l[0].count == c then [l[0]] else [];
    WithCountCons(l[0], Insert(l[1..], x), c);
    WithCountCons(l[0], l[1..], c);
    assert [l[0]] + l[1..] == l;
    ConcatAssoc(head, WithCount(l[1..], c), if x.count == c then [x] else []);
  }

  lemma {:induction false} InsertWithCount(l: seq<Entry>, x: Entry, c: int)
    requires NonIncreasing(l)
    ensures WithCount(Insert(l, x), c) == WithCount(l, c) + (if x.count == c then [x] else [])
  {
    if l == [] {
      WithCountCons(x, [], c);
    } else if l[0].count < x.count {
      WithCountFront(l, x, c);
    } else {
      InsertWithCount(l[1..], x, c);
      WithCountPast(l, x, c);
    }
  }

  /** A stable sort of s by count, descending. */
  function SortDesc(s: seq<Entry>): (r: seq<Entry>)
    ensures |r| == |s|
    ensures NonIncreasing(r)
    ensures multiset(r) == multiset(s)
    ensures forall c :: WithCount(r, c) == WithCount(s, c)
    decreases |s|
  {
    if s == [] then []
    else
      var init, last := s[..|s| - 1], s[|s| - 1];
      assert s == init + [last];
      var sortedInit := SortDesc(init);
      InsertSorted(sortedInit, last);
      assert forall c :: WithCount(Insert(sortedInit, last), c) == WithCount(s, c) by {
        forall c ensures WithCount(Insert(sortedInit, last), c) == WithCount(s, c) {
          WithCountAppend(init, [last], c);
          InsertWithCount(sortedInit, last, c);
        }
      }
      Insert(sortedInit, last)
  }

  lemma {:induction false} OmittedAreNotHigher(sorted: seq<Entry>, m: nat, e: Entry, i: nat)
    requires NonIncreasing(sorted) && m <= |sorted|
    requires e in sorted && e !in sorted[..m] && i < m
    ensures e.count <= sorted[i].count
  {
    var j :| 0 <= j < |sorted| && sorted[j] == e;
  }

  /** The first min(k, |s|) entries of a sorted permutation of s are a top-k selection. */
  lemma {:induction false} SortedPrefixIsTopK(s: seq<Entry>, sorted: seq<Entry>, k: nat)
    requires |sorted| == |s| && NonIncreasing(sorted) && multiset(sorted) == multiset(s)
    ensures IsTopK(s, k, sorted[..Min(k, |s|)])
  {
    var m := Min(k, |s|);
    var r := sorted[..m];
    assert sorted == r + sorted[m..];
    assert multiset(sorted) == multiset(r) + multiset(sorted[m..]);
    forall e, i | e in s && e !in r && 0 <= i < |r| ensures e.count <= r[i].count {
      assert e in multiset(sorted);
      OmittedAreNotHigher(sorted, m, e, i);
    }
  }

  /** A prefix keeps, for every count, a prefix of the entries with that count. */
  lemma {:induction false} PrefixWithCount(sorted: seq<Entry>, m: nat, c: int)
    requires m <= |sorted|
    ensures IsPrefix(WithCount(sorted[..m], c), WithCount(sorted, c))
  {
    assert sorted == sorted[..m] + sorted[m..];
    WithCountAppend(sorted[..m], sorted[m..], c);
  }

  /**
   * Counter.most_common(k) over the items s of a counter: the k entries
   * with the largest counts; among equal counts, the earliest in s.
   */
  function MostCommon(s: seq<Entry>, k: nat): (r: seq<Entry>)
    ensures IsTopK(s, k, r)
    ensures forall c :: IsPrefix(WithCount(r, c), WithCount(s, c))
  {
    var sorted := SortDesc(s);
    assert |sorted| == |s|;
    SortedPrefixIsTopK(s, sorted, k);
    assert forall c :: IsPrefix(WithCount(sorted[..Min(k, |s|)], c), WithCount(s, c)) by {
      forall c ensures IsPrefix(WithCount(sorted[..Min(k, |s|)], c), WithCount(s, c)) {
        PrefixWithCount(sorted, Min(k, |s|), c);
      }
    }
    sorted[..Min(k, |s|)]
  }
}
