/**
 * Generic sequence operations the page and the map rely on: JavaScript's
 * `Array.prototype.filter` (Select), order-preserving subsequences, and the
 * insertion-ordered de-duplication that `[...new Set(xs)]` performs (Distinct).
 */
module Sequences {

  /** `s.filter(p)`: the elements of `s` that satisfy `p`, in their original order. */
  function Select<T>(s: seq<T>, p: T -> bool): (r: seq<T>)
    ensures |r| <= |s|
    ensures forall i :: 0 <= i < |r| ==> r[i] in s && p(r[i])
    ensures forall i :: 0 <= i < |s| && p(s[i]) ==> s[i] in r
  {
    if s == [] then []
    else (if p(s[0]) then [s[0]] else []) + Select(s[1..], p)
  }

  /** `xs` can be obtained from `ys` by deleting elements, without reordering. */
  predicate IsSubsequence<T(==)>(xs: seq<T>, ys: seq<T>)
    decreases |ys|
  {
    xs == [] ||
    (ys != [] &&
     ((xs[0] == ys[0] && IsSubsequence(xs[1..], ys[1..])) || IsSubsequence(xs, ys[1..])))
  }

  /** Two permutations of each other that agree after `n` are permutations of each other up to `n`. */
  lemma SamePrefixMultiset<T>(xs: seq<T>, ys: seq<T>, n: nat)
    requires n <= |xs| == |ys|
    requires multiset(xs) == multiset(ys)
    requires xs[n..] == ys[n..]
    ensures multiset(xs[..n]) == multiset(ys[..n])
  {
    assert xs == xs[..n] + xs[n..];
    assert ys == ys[..n] + ys[n..];
    assert multiset(xs[..n]) == multiset(xs) - multiset(xs[n..]);
    assert multiset(ys[..n]) == multiset(ys) - multiset(ys[n..]);
  }

  lemma {:induction false} SubsequenceIsShorter<T>(xs: seq<T>, ys: seq<T>)
    requires IsSubsequence(xs, ys)
    ensures |xs| <= |ys|
  {
    if xs != [] {
      if xs[0] == ys[0] && IsSubsequence(xs[1..], ys[1..]) {
        SubsequenceIsShorter(xs[1..], ys[1..]);
      } else {
        SubsequenceIsShorter(xs, ys[1..]);
      }
    }
  }

  /** Filtering deletes elements and never reorders the survivors. */
  lemma {:induction false} SelectIsSubsequence<T>(s: seq<T>, p: T -> bool)
    ensures IsSubsequence(Select(s, p), s)
  {
    if s != [] {
      SelectIsSubsequence(s[1..], p);
      var rest := Select(s[1..], p);
      if p(s[0]) {
        assert Select(s, p) == [s[0]] + rest;
        assert ([s[0]] + rest)[1..] == rest;
      } else {
        assert Select(s, p) == rest;
      }
    }
  }

  /** Filtering twice in a row is filtering once by the conjunction. */
  lemma {:induction false} SelectFusion<T>(s: seq<T>, p: T -> bool, q: T -> bool, both: T -> bool)
    requires forall x :: both(x) == (p(x) && q(x))
    ensures Select(Select(s, p), q) == Select(s, both)
  {
    if s != [] {
      SelectFusion(s[1..], p, q, both);
      var head := if p(s[0]) then [s[0]] else [];
      assert Select(s, p) == head + Select(s[1..], p);
      SelectAppend(head, Select(s[1..], p), q);
    }
  }

  lemma {:induction false} SelectAppend<T>(a: seq<T>, b: seq<T>, p: T -> bool)
    ensures Select(a + b, p) == Select(a, p) + Select(b, p)
  {
    if a == [] {
      assert a + b == b;
    } else {
      assert (a + b)[1..] == a[1..] + b;
      SelectAppend(a[1..], b, p);
    }
  }

  /** Filtering a sequence whose elements all pass changes nothing. */
  lemma {:induction false} SelectKeepsAll<T>(s: seq<T>, p: T -> bool)
    requires forall x :: x in s ==> p(x)
    ensures Select(s, p) == s
  {
    if s != [] {
      assert forall x :: x in s[1..] ==> x in s;
      SelectKeepsAll(s[1..], p);
      assert [s[0]] + s[1..] == s;
    }
  }

  /** Filtering is idempotent. */
  lemma SelectIdempotent<T>(s: seq<T>, p: T -> bool)
    ensures Select(Select(s, p), p) == Select(s, p)
  {
    SelectKeepsAll(Select(s, p), p);
  }

  predicate NoDuplicates<T(==)>(s: seq<T>) {
    forall i, j :: 0 <= i < j < |s| ==> s[i] != s[j]
  }

  /** Position of the first occurrence of `x` in `s`. */
  function FirstIndex<T(==)>(s: seq<T>, x: T): (k: nat)
    requires x in s
    ensures k < |s| && s[k] == x
    ensures forall i :: 0 <= i < k ==> s[i] != x
  {
    if s[0] == x then 0 else 1 + FirstIndex(s[1..], x)
  }

  lemma {:induction false} FirstIndexAppend<T>(s: seq<T>, x: T, y: T)
    requires y in s + [x]
    ensures y in s ==> FirstIndex(s + [x], y) == FirstIndex(s, y)
    ensures y !in s ==> FirstIndex(s + [x], y) == |s|
  {
    var k := FirstIndex(s + [x], y);
    if y in s {
      var j := FirstIndex(s, y);
      assert (s + [x])[j] == y;
      assert k <= j;
      assert s[k] == y;
    } else {
      assert forall i :: 0 <= i < |s| ==> (s + [x])[i] != y;
    }
  }

  /**
   * `[...new Set(s)]`: a Set remembers insertion order, so the result holds
   * each value once, in the order of its first occurrence in `s`.
   */
  function Distinct<T(==)>(s: seq<T>): (r: seq<T>)
    ensures NoDuplicates(r)
    ensures forall i :: 0 <= i < |r| ==> r[i] in s
    ensures forall i :: 0 <= i < |s| ==> s[i] in r
    decreases |s|
  {
    if s == [] then []
    else
      var init, last := s[..|s| - 1], s[|s| - 1];
      assert s == init + [last];
      var d := Distinct(init);
      if last in d then d else d + [last]
  }

  /** The values of `Distinct(s)` appear in the order of their first occurrence in `s`. */
  lemma {:induction false} DistinctFirstSeenOrder<T>(s: seq<T>)
    ensures forall i, j :: 0 <= i < j < |Distinct(s)| ==>
      FirstIndex(s, Distinct(s)[i]) < FirstIndex(s, Distinct(s)[j])
    decreases |s|
  {
    if s != [] {
      var init, last := s[..|s| - 1], s[|s| - 1];
      assert s == init + [last];
      var d := Distinct(init);
      DistinctFirstSeenOrder(init);
      forall y | y in d
        ensures FirstIndex(s, y) == FirstIndex(init, y)
      {
        FirstIndexAppend(init, last, y);
      }
      if last !in d {
        FirstIndexAppend(init, last, last);
        assert Distinct(s) == d + [last];
        forall i | 0 <= i < |d|
          ensures FirstIndex(init, d[i]) < |init|
        {
        }
      }
    }
  }
}
