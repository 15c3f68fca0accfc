/**
 * The stable sorts behind the source's `Array.prototype.sort` calls: by an integer key
 * (dates, chart values; a descending comparator becomes the negated key) and by the
 * default string order (departments).
 */
module Sorting {
  import Seqs

  /** Non-decreasing by `key`. */
  ghost predicate SortedBy<T>(s: seq<T>, key: T -> int) {
    forall i, j :: 0 <= i < j < |s| ==> key(s[i]) <= key(s[j])
  }

  /** Puts `x` before the first element whose key is not smaller, so equal keys keep their order. */
  function InsertBy<T>(x: T, s: seq<T>, key: T -> int): (r: seq<T>)
    ensures |r| == |s| + 1
    ensures multiset(r) == multiset(s) + multiset{x}
  {
    if |s| == 0 then [x]
    else if key(x) <= key(s[0]) then [x] + s
    else
      assert s == [s[0]] + s[1..];
      [s[0]] + InsertBy(x, s[1..], key)
  }

  lemma {:induction false} InsertBySorted<T>(x: T, s: seq<T>, key: T -> int)
    requires SortedBy(s, key)
    ensures SortedBy(InsertBy(x, s, key), key)
  {
    if |s| > 0 && key(x) > key(s[0]) {
      var t := InsertBy(x, s[1..], key);
      InsertBySorted(x, s[1..], key);
      forall j | 0 <= j < |t| ensures key(s[0]) <= key(t[j]) {
        assert t[j] in multiset(t);
        if t[j] != x {
          assert t[j] in multiset(s[1..]);
          var k :| 0 <= k < |s[1..]| && s[1..][k] == t[j];
          assert s[k + 1] == t[j];
        }
      }
      ConsSorted(s[0], t, key);
    }
  }

  /** Stable insertion sort by `key`: a sorted permutation of `s`. */
  function SortBy<T>(s: seq<T>, key: T -> int): (r: seq<T>)
    ensures |r| == |s|
    ensures SortedBy(r, key)
    ensures multiset(r) == multiset(s)
  {
    if |s| == 0 then []
    else
      assert s == [s[0]] + s[1..];
      var t := SortBy(s[1..], key);
      InsertBySorted(s[0], t, key);
      InsertBy(s[0], t, key)
  }

  /** The elements whose key is `k`. */
  function KeyIs<T>(key: T -> int, k: int): T -> bool {
    (x: T) => key(x) == k
  }

  /** Inserting `x` puts it in front of every element with the same key. */
  lemma {:induction false} InsertByFirstAmongEqual<T>(x: T, s: seq<T>, key: T -> int, k: int)
    ensures Seqs.Filter(InsertBy(x, s, key), KeyIs(key, k)) ==
            (if key(x) == k then [x] else []) + Seqs.Filter(s, KeyIs(key, k))
  {
    var q := KeyIs(key, k);
    if |s| == 0 {
      Seqs.FilterCons(x, s, q);
      assert [x] + s == [x];
    } else if key(x) <= key(s[0]) {
      Seqs.FilterCons(x, s, q);
    } else {
      InsertByFirstAmongEqual(x, s[1..], key, k);
      PastHead(x, s, key, k);
    }
  }

  /** The step of `InsertByFirstAmongEqual` where `x` goes past the head, which then cannot have key `k` if `x` has. */
  lemma PastHead<T>(x: T, s: seq<T>, key: T -> int, k: int)
    requires |s| > 0 && key(x) > key(s[0])
    requires Seqs.Filter(InsertBy(x, s[1..], key), KeyIs(key, k)) ==
             (if key(x) == k then [x] else []) + Seqs.Filter(s[1..], KeyIs(key, k))
    ensures Seqs.Filter(InsertBy(x, s, key), KeyIs(key, k)) ==
            (if key(x) == k then [x] else []) + Seqs.Filter(s, KeyIs(key, k))
  {
    var q := KeyIs(key, k);
    var t := InsertBy(x, s[1..], key);
    var head := if key(x) == k then [x] else [];
    var first := if key(s[0]) == k then [s[0]] else [];
    var rest := Seqs.Filter(s[1..], q);
    assert InsertBy(x, s, key) == [s[0]] + t;
    Seqs.FilterCons(s[0], t, q);
    Seqs.FilterHead(s, q);
    SwapEmptyFront(first, head, rest);
  }

  lemma SwapEmptyFront<T>(a: seq<T>, b: seq<T>, c: seq<T>)
    requires a == [] || b == []
    ensures a + (b + c) == b + (a + c)
  {
  }

  /**
   * `SortBy` is stable: for every key, the elements with that key come out in the order
   * they went in.
   */
  lemma {:induction false} SortByStable<T>(s: seq<T>, key: T -> int, k: int)
    ensures Seqs.Filter(SortBy(s, key), KeyIs(key, k)) == Seqs.Filter(s, KeyIs(key, k))
  {
    if |s| > 0 {
      SortByStable(s[1..], key, k);
      InsertByFirstAmongEqual(s[0], SortBy(s[1..], key), key, k);
    }
  }

  /** Filtering never reorders: a filter of a sorted sequence is sorted. */
  lemma {:induction false} FilterKeepsSorted<T>(s: seq<T>, p: T -> bool, key: T -> int)
    requires SortedBy(s, key)
    ensures SortedBy(Seqs.Filter(s, p), key)
  {
    if |s| > 0 {
      FilterKeepsSorted(s[1..], p, key);
      var rest := Seqs.Filter(s[1..], p);
      if p(s[0]) {
        forall j | 0 <= j < |rest| ensures key(s[0]) <= key(rest[j]) {
          HeadIsLeast(s, key, rest[j]);
        }
        ConsSorted(s[0], rest, key);
        assert Seqs.Filter(s, p) == [s[0]] + rest;
      } else {
        assert Seqs.Filter(s, p) == rest;
      }
    }
  }

  /** The head of a sorted sequence has the least key. */
  lemma HeadIsLeast<T>(s: seq<T>, key: T -> int, x: T)
    requires SortedBy(s, key) && |s| > 0 && x in s[1..]
    ensures key(s[0]) <= key(x)
  {
    var k :| 0 <= k < |s[1..]| && s[1..][k] == x;
    assert s[k + 1] == x;
  }

  /** An element no greater than everything in a sorted sequence can go in front. */
  lemma ConsSorted<T>(x: T, t: seq<T>, key: T -> int)
    requires SortedBy(t, key)
    requires forall j :: 0 <= j < |t| ==> key(x) <= key(t[j])
    ensures SortedBy([x] + t, key)
  {
    var r := [x] + t;
    forall i, j | 0 <= i < j < |r| ensures key(r[i]) <= key(r[j]) {
      assert r[j] == t[j - 1];
      if i > 0 { assert r[i] == t[i - 1]; }
    }
  }

  /** The default string order of `sort()`: lexicographic by character code. */
  predicate LexLe(a: string, b: string)
  {
    if |a| == 0 then true
    else if |b| == 0 then false
    else if a[0] < b[0] then true
    else if a[0] > b[0] then false
    else LexLe(a[1..], b[1..])
  }

  lemma {:induction false} LexLeTotal(a: string, b: string)
    ensures LexLe(a, b) || LexLe(b, a)
  {
    if |a| > 0 && |b| > 0 && a[0] == b[0] {
      LexLeTotal(a[1..], b[1..]);
    }
  }

  lemma {:induction false} LexLeTransitive(a: string, b: string, c: string)
    requires LexLe(a, b) && LexLe(b, c)
    ensures LexLe(a, c)
  {
    if |a| > 0 && |b| > 0 && |c| > 0 && a[0] == b[0] == c[0] {
      LexLeTransitive(a[1..], b[1..], c[1..]);
    }
  }

  ghost predicate LexSorted(s: seq<string>) {
    forall i, j :: 0 <= i < j < |s| ==> LexLe(s[i], s[j])
  }

  function InsertLex(x: string, s: seq<string>): (r: seq<string>)
    ensures |r| == |s| + 1
    ensures multiset(r) == multiset(s) + multiset{x}
  {
    if |s| == 0 then [x]
    else if LexLe(x, s[0]) then [x] + s
    else
      assert s == [s[0]] + s[1..];
      [s[0]] + InsertLex(x, s[1..])
  }

  lemma {:induction false} InsertLexSorted(x: string, s: seq<string>)
    requires LexSorted(s)
    ensures LexSorted(InsertLex(x, s))
  {
    if |s| == 0 {
    } else if LexLe(x, s[0]) {
      forall j | 0 <= j < |s| ensures LexLe(x, s[j]) {
        if j > 0 { LexLeTransitive(x, s[0], s[j]); }
      }
      ConsLexSorted(x, s);
    } else {
      LexLeTotal(x, s[0]);
      var t := InsertLex(x, s[1..]);
      InsertLexSorted(x, s[1..]);
      forall j | 0 <= j < |t| ensures LexLe(s[0], t[j]) {
        assert t[j] in multiset(t);
        if t[j] != x {
          assert t[j] in multiset(s[1..]);
          var k :| 0 <= k < |s[1..]| && s[1..][k] == t[j];
          assert s[k + 1] == t[j];
        }
      }
      ConsLexSorted(s[0], t);
    }
  }

  /** A string no greater than everything in a sorted sequence can go in front. */
  lemma ConsLexSorted(x: string, t: seq<string>)
    requires LexSorted(t)
    requires forall j :: 0 <= j < |t| ==> LexLe(x, t[j])
    ensures LexSorted([x] + t)
  {
    var r := [x] + t;
    forall i, j | 0 <= i < j < |r| ensures LexLe(r[i], r[j]) {
      assert r[j] == t[j - 1];
      if i > 0 { assert r[i] == t[i - 1]; }
    }
  }

  /** `[...s].sort()` on strings: a sorted permutation. */
  function SortStrings(s: seq<string>): (r: seq<string>)
    ensures |r| == |s|
    ensures LexSorted(r)
    ensures multiset(r) == multiset(s)
  {
    if |s| == 0 then []
    else
      assert s == [s[0]] + s[1..];
      var t := SortStrings(s[1..]);
      InsertLexSorted(s[0], t);
      InsertLex(s[0], t)
  }
}
