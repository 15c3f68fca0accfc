/** Sequence helpers for the array methods the source uses: findIndex, filter, reduce. */
module Seqs {
  import opened Wrappers

  /** Array.prototype.findIndex: the first index whose element satisfies `p` (None for -1). */
  function FindFirst<T>(s: seq<T>, p: T -> bool): (r: Option<nat>)
    ensures r.Some? ==> r.value < |s| && p(s[r.value])
    ensures r.Some? ==> forall j :: 0 <= j < r.value ==> !p(s[j])
    ensures r.None? <==> forall j :: 0 <= j < |s| ==> !p(s[j])
  {
    if |s| == 0 then None
    else if p(s[0]) then Some(0)
    else
      match FindFirst(s[1..], p)
      case None => None
      case Some(k) => Some(k + 1)
  }

  /** Array.prototype.find: the first element satisfying `p`. */
  function Find<T>(s: seq<T>, p: T -> bool): (r: Option<T>)
    ensures r.Some? <==> FindFirst(s, p).Some?
    ensures r.Some? ==> r.value == s[FindFirst(s, p).value]
  {
    match FindFirst(s, p)
    case None => None
    case Some(k) => Some(s[k])
  }

  /** Array.prototype.filter: keeps, in order, the elements satisfying `p`. */
  function Filter<T>(s: seq<T>, p: T -> bool): (r: seq<T>)
    ensures |r| <= |s|
    ensures forall i :: 0 <= i < |r| ==> p(r[i])
    ensures forall i :: 0 <= i < |s| && p(s[i]) ==> s[i] in r
    ensures forall i :: 0 <= i < |r| ==> r[i] in s
    ensures multiset(r) <= multiset(s)
  {
    if |s| == 0 then []
    else
      var rest := Filter(s[1..], p);
      FilterStep(s, p, rest);
      (if p(s[0]) then [s[0]] else []) + rest
  }

  /** One step of `Filter`: the facts about the tail's result carry over to the whole. */
  lemma FilterStep<T>(s: seq<T>, p: T -> bool, rest: seq<T>)
    requires |s| > 0
    requires |rest| <= |s| - 1
    requires forall i :: 0 <= i < |rest| ==> p(rest[i])
    requires forall i :: 1 <= i < |s| && p(s[i]) ==> s[i] in rest
    requires multiset(rest) <= multiset(s[1..])
    ensures var r := (if p(s[0]) then [s[0]] else []) + rest;
      && |r| <= |s|
      && (forall i :: 0 <= i < |r| ==> p(r[i]))
      && (forall i :: 0 <= i < |s| && p(s[i]) ==> s[i] in r)
      && (forall i :: 0 <= i < |r| ==> r[i] in s)
      && multiset(r) <= multiset(s)
  {
    var head := if p(s[0]) then [s[0]] else [];
    var r := head + rest;
    assert multiset(s) == multiset{s[0]} + multiset(s[1..]) by {
      assert s == [s[0]] + s[1..];
    }
    assert multiset(r) == multiset(head) + multiset(rest);
    assert multiset(r) <= multiset(s);
    forall i | 0 <= i < |r|
      ensures r[i] in s
    {
      assert r[i] in multiset(r);
    }
  }

  /**
   * `r` lists elements of `s` in their order in `s`: `idx` gives, for each element
   * of `r`, a position in `s` holding it, and the positions strictly increase.
   */
  ghost predicate PicksInOrder<T>(r: seq<T>, s: seq<T>, idx: seq<nat>) {
    && |idx| == |r|
    && (forall i :: 0 <= i < |idx| ==> idx[i] < |s| && r[i] == s[idx[i]])
    && (forall i, j :: 0 <= i < j < |idx| ==> idx[i] < idx[j])
  }

  /** `r` is `s` with some elements left out and the rest in their order. */
  ghost predicate Subsequence<T>(r: seq<T>, s: seq<T>) {
    exists idx :: PicksInOrder(r, s, idx)
  }

  /** `Filter` gives a subsequence of its input. */
  lemma FilterIsSubsequence<T>(s: seq<T>, p: T -> bool)
    ensures Subsequence(Filter(s, p), s)
  {
    var idx := FilterInOrder(s, p);
  }

  /** `Filter` never reorders: its result picks elements of the input in order. */
  lemma {:induction false} FilterInOrder<T>(s: seq<T>, p: T -> bool) returns (idx: seq<nat>)
    ensures PicksInOrder(Filter(s, p), s, idx)
  {
    if |s| == 0 {
      idx := [];
    } else {
      var rest := Filter(s[1..], p);
      var tail := FilterInOrder(s[1..], p);
      idx := PicksInTail(rest, s, tail, p(s[0]));
      if p(s[0]) {
        assert Filter(s, p) == [s[0]] + rest;
      } else {
        assert Filter(s, p) == rest;
      }
    }
  }

  /** Picks from the tail of `s`, shifted by one, are picks from `s`; picking the head as well keeps the order. */
  lemma PicksInTail<T>(r: seq<T>, s: seq<T>, tail: seq<nat>, withHead: bool) returns (idx: seq<nat>)
    requires |s| > 0 && PicksInOrder(r, s[1..], tail)
    ensures PicksInOrder(if withHead then [s[0]] + r else r, s, idx)
  {
    var shifted := seq(|tail|, i requires 0 <= i < |tail| => tail[i] + 1);
    assert forall i :: 0 <= i < |shifted| ==> shifted[i] == tail[i] + 1;
    if withHead {
      idx := [0] + shifted;
      var r' := [s[0]] + r;
      forall i | 0 <= i < |idx|
        ensures idx[i] < |s| && r'[i] == s[idx[i]]
      {
        if i > 0 {
          assert idx[i] == tail[i - 1] + 1 && r'[i] == r[i - 1];
        }
      }
      forall i, j | 0 <= i < j < |idx|
        ensures idx[i] < idx[j]
      {
        if i > 0 {
          assert idx[i] == tail[i - 1] + 1 && idx[j] == tail[j - 1] + 1;
        }
      }
    } else {
      idx := shifted;
    }
  }

  /** `Filter` keeps every copy of a kept value and no copy of a dropped one. */
  lemma {:induction false} FilterMultiplicity<T>(s: seq<T>, p: T -> bool)
    ensures forall x :: multiset(Filter(s, p))[x] == if p(x) then multiset(s)[x] else 0
  {
    if |s| > 0 {
      FilterMultiplicity(s[1..], p);
      assert s == [s[0]] + s[1..];
      assert multiset(s) == multiset{s[0]} + multiset(s[1..]);
      var head := if p(s[0]) then [s[0]] else [];
      assert Filter(s, p) == head + Filter(s[1..], p);
      assert multiset(Filter(s, p)) == multiset(head) + multiset(Filter(s[1..], p));
    }
  }

  /** Filtering peels off the first element. */
  lemma FilterHead<T>(s: seq<T>, p: T -> bool)
    requires |s| > 0
    ensures Filter(s, p) == (if p(s[0]) then [s[0]] else []) + Filter(s[1..], p)
  {
  }

  /** Filtering a sequence with a given first element. */
  lemma FilterCons<T>(x: T, t: seq<T>, p: T -> bool)
    ensures Filter([x] + t, p) == (if p(x) then [x] else []) + Filter(t, p)
  {
    assert ([x] + t)[0] == x && ([x] + t)[1..] == t;
  }

  /** Filtering a concatenation filters each part. */
  lemma {:induction false} FilterConcat<T>(a: seq<T>, b: seq<T>, p: T -> bool)
    ensures Filter(a + b, p) == Filter(a, p) + Filter(b, p)
  {
    if |a| == 0 {
      assert a + b == b;
    } else {
      var head := if p(a[0]) then [a[0]] else [];
      assert (a + b)[0] == a[0];
      assert (a + b)[1..] == a[1..] + b;
      FilterConcat(a[1..], b, p);
      assert Filter(a + b, p) == head + (Filter(a[1..], p) + Filter(b, p));
      assert head + (Filter(a[1..], p) + Filter(b, p)) == (head + Filter(a[1..], p)) + Filter(b, p);
    }
  }

  /** A filter whose predicate holds everywhere keeps everything. */
  lemma {:induction false} FilterAll<T>(s: seq<T>, p: T -> bool)
    requires forall i :: 0 <= i < |s| ==> p(s[i])
    ensures Filter(s, p) == s
  {
    if |s| > 0 {
      FilterAll(s[1..], p);
    }
  }

  /** The number of elements satisfying `p`: `s.filter(p).length`. */
  function Count<T>(s: seq<T>, p: T -> bool): (n: nat)
    ensures n <= |s|
  {
    |Filter(s, p)|
  }

  /** Counting peels off the first element. */
  lemma CountCons<T>(s: seq<T>, p: T -> bool)
    requires |s| > 0
    ensures Count(s, p) == (if p(s[0]) then 1 else 0) + Count(s[1..], p)
  {
  }

  /** Counting a concatenation adds the counts. */
  lemma CountConcat<T>(a: seq<T>, b: seq<T>, p: T -> bool)
    ensures Count(a + b, p) == Count(a, p) + Count(b, p)
  {
    FilterConcat(a, b, p);
  }

  /** `s.reduce((acc, x) => acc + f(x), 0)`, written as a right-nested sum. */
  function SumOf<T>(s: seq<T>, f: T -> int): int
  {
    if |s| == 0 then 0 else f(s[0]) + SumOf(s[1..], f)
  }

  lemma {:induction false} SumOfConcat<T>(a: seq<T>, b: seq<T>, f: T -> int)
    ensures SumOf(a + b, f) == SumOf(a, f) + SumOf(b, f)
  {
    if |a| == 0 {
      assert a + b == b;
    } else {
      assert (a + b)[1..] == a[1..] + b;
      SumOfConcat(a[1..], b, f);
    }
  }

  /** Replacing one element changes the sum by the difference of the two terms. */
  lemma SumOfUpdate<T>(s: seq<T>, k: nat, x: T, f: T -> int)
    requires k < |s|
    ensures SumOf(s[k := x], f) == SumOf(s, f) - f(s[k]) + f(x)
  {
    assert s == s[..k] + [s[k]] + s[k + 1..];
    assert s[k := x] == s[..k] + [x] + s[k + 1..];
    SumOfConcat(s[..k] + [s[k]], s[k + 1..], f);
    SumOfConcat(s[..k], [s[k]], f);
    SumOfConcat(s[..k] + [x], s[k + 1..], f);
    SumOfConcat(s[..k], [x], f);
  }

  /** Taking out the term at index `i` leaves the rest of the sum. */
  lemma SumOfRemove<T>(b: seq<T>, i: nat, f: T -> int)
    requires i < |b|
    ensures SumOf(b, f) == f(b[i]) + SumOf(b[..i] + b[i + 1..], f)
  {
    var pre, mid, post := b[..i], [b[i]] + b[i + 1..], b[i + 1..];
    assert b == pre + mid;
    SumOfConcat(pre, mid, f);
    SumOfCons(b[i], post, f);
    SumOfConcat(pre, post, f);
  }

  lemma SumOfCons<T>(x: T, t: seq<T>, f: T -> int)
    ensures SumOf([x] + t, f) == f(x) + SumOf(t, f)
  {
    assert ([x] + t)[1..] == t;
  }

  /** Taking out the element at index `i` takes one copy of it out of the multiset. */
  lemma MultisetRemove<T>(b: seq<T>, i: nat)
    requires i < |b|
    ensures multiset(b[..i] + b[i + 1..]) == multiset(b) - multiset{b[i]}
  {
    assert b == b[..i] + [b[i]] + b[i + 1..];
  }

  /** A sum does not depend on the order of its terms. */
  lemma {:induction false} SumOfPermutation<T>(a: seq<T>, b: seq<T>, f: T -> int)
    requires multiset(a) == multiset(b)
    ensures SumOf(a, f) == SumOf(b, f)
  {
    if |a| == 0 {
      assert |b| == |multiset(b)| == 0;
    } else {
      assert a[0] in multiset(b);
      var i :| 0 <= i < |b| && b[i] == a[0];
      var rest := b[..i] + b[i + 1..];
      MultisetRemove(b, i);
      assert multiset(a[1..]) == multiset(a) - multiset{a[0]} by {
        assert a == [a[0]] + a[1..];
      }
      SumOfPermutation(a[1..], rest, f);
      SumOfRemove(b, i, f);
    }
  }

  lemma SumOfSingleton<T>(x: T, f: T -> int)
    ensures SumOf([x], f) == f(x)
  {
    assert [x][1..] == [];
  }

  /** `s.map(f)`. */
  function Map<T, U>(s: seq<T>, f: T -> U): (r: seq<U>)
    ensures |r| == |s|
    ensures forall i :: 0 <= i < |s| ==> r[i] == f(s[i])
  {
    seq(|s|, i requires 0 <= i < |s| => f(s[i]))
  }

  /** `s.reverse()`. */
  function Reversed<T>(s: seq<T>): (r: seq<T>)
    ensures |r| == |s|
    ensures forall i :: 0 <= i < |s| ==> r[i] == s[|s| - 1 - i]
  {
    seq(|s|, i requires 0 <= i < |s| => s[|s| - 1 - i])
  }

  /** Summing the images of a map is summing the composed term. */
  lemma {:induction false} SumOfMap<T, U>(s: seq<T>, g: T -> U, f: U -> int, h: T -> int)
    requires forall x :: h(x) == f(g(x))
    ensures SumOf(Map(s, g), f) == SumOf(s, h)
  {
    if |s| > 0 {
      assert Map(s, g)[1..] == Map(s[1..], g);
      SumOfMap(s[1..], g, f, h);
    }
  }

  /** Whatever `p` is, every element is counted by `p` or by its negation. */
  lemma {:induction false} CountComplement<T>(s: seq<T>, p: T -> bool, q: T -> bool)
    requires forall x :: q(x) == !p(x)
    ensures Count(s, p) + Count(s, q) == |s|
  {
    if |s| > 0 {
      CountComplement(s[1..], p, q);
    }
  }

  /** A sum of non-negative terms is non-negative, and 0 only when every term is. */
  lemma {:induction false} SumOfNonNegative<T>(s: seq<T>, f: T -> int)
    requires forall i :: 0 <= i < |s| ==> f(s[i]) >= 0
    ensures SumOf(s, f) >= 0
    ensures SumOf(s, f) == 0 <==> forall i :: 0 <= i < |s| ==> f(s[i]) == 0
  {
    if |s| > 0 {
      assert forall i :: 0 <= i < |s[1..]| ==> s[1..][i] == s[i + 1];
      SumOfNonNegative(s[1..], f);
      if SumOf(s, f) == 0 {
        forall i | 0 <= i < |s| ensures f(s[i]) == 0 {
          if i > 0 {
            assert s[i] == s[1..][i - 1];
          }
        }
      }
    }
  }

  /** Each element passing the filter has its image in the filter-then-map. */
  lemma MapFilterHas<T, U>(s: seq<T>, p: T -> bool, f: T -> U, j: nat)
    requires j < |s| && p(s[j])
    ensures f(s[j]) in Map(Filter(s, p), f)
  {
    var kept := Filter(s, p);
    assert s[j] in kept;
    var k :| 0 <= k < |kept| && kept[k] == s[j];
    assert Map(kept, f)[k] == f(s[j]);
  }
}
