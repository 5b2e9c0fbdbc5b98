/** Sequence helpers shared by the pipeline: order-preserving filtering
    (JavaScript's Array.prototype.filter) and first-appearance de-duplication
    (the key order of a JavaScript Map that is filled left to right). */
module Seqs {

  /** The elements of `s` that satisfy `p`, in their original order. */
  function Filter<T>(p: T -> bool, s: seq<T>): (r: seq<T>)
    ensures |r| <= |s|
  {
    if |s| == 0 then []
    else Filter(p, s[..|s| - 1]) + (if p(s[|s| - 1]) then [s[|s| - 1]] else [])
  }

  /** Filtering one more element on the right adds it exactly when it passes. */
  lemma FilterSnoc<T>(p: T -> bool, s: seq<T>, x: T)
    ensures Filter(p, s + [x]) == Filter(p, s) + (if p(x) then [x] else [])
  {
    assert (s + [x])[..|s|] == s;
  }

  /** An element is kept exactly when it occurs in the input and passes. */
  lemma {:induction false} FilterMembership<T>(p: T -> bool, s: seq<T>, x: T)
    ensures x in Filter(p, s) <==> x in s && p(x)
  {
    if |s| > 0 {
      var init, last := s[..|s| - 1], s[|s| - 1];
      assert s == init + [last];
      FilterMembership(p, init, x);
    }
  }

  /** Filtering distributes over concatenation: the relative order of kept elements is the input order. */
  lemma {:induction false} FilterAppend<T>(p: T -> bool, a: seq<T>, b: seq<T>)
    ensures Filter(p, a + b) == Filter(p, a) + Filter(p, b)
  {
    if |b| > 0 {
      var init, last := b[..|b| - 1], b[|b| - 1];
      assert b == init + [last];
      assert a + b == (a + init) + [last];
      FilterAppend(p, a, init);
      FilterSnoc(p, a + init, last);
      FilterSnoc(p, init, last);
    } else {
      assert a + b == a;
    }
  }

  /** The filter is empty exactly when no element passes. */
  lemma FilterEmpty<T>(p: T -> bool, s: seq<T>)
    ensures Filter(p, s) == [] <==> forall x :: x in s ==> !p(x)
  {
    forall x | x in s
      ensures x in Filter(p, s) <==> p(x)
    {
      FilterMembership(p, s, x);
    }
    if Filter(p, s) != [] {
      var r := Filter(p, s);
      assert r[0] in r;
    }
  }

  /** The index of the first occurrence of `x` in `s`. */
  function FirstIndex<T(==)>(s: seq<T>, x: T): (n: nat)
    requires x in s
    ensures n < |s| && s[n] == x
    ensures forall m :: 0 <= m < n ==> s[m] != x
  {
    if s[0] == x then 0 else 1 + FirstIndex(s[1..], x)
  }

  /** The first occurrence is the only index that is one and has no earlier occurrence. */
  lemma FirstIndexUnique<T>(s: seq<T>, x: T, n: nat)
    requires n < |s| && s[n] == x
    requires forall m :: 0 <= m < n ==> s[m] != x
    ensures FirstIndex(s, x) == n
  {
  }

  /** The distinct elements of `s`, each at the position of its first appearance. */
  function Distinct<T(==)>(s: seq<T>): (r: seq<T>)
    ensures |r| <= |s|
    ensures forall x :: x in r ==> x in s
    ensures forall x :: x in s ==> x in r
  {
    if |s| == 0 then []
    else
      var init, last := s[..|s| - 1], s[|s| - 1];
      assert s == init + [last];
      var r := Distinct(init);
      if last in r then r else r + [last]
  }

  /** No element occurs twice. */
  ghost predicate NoDuplicates<T>(s: seq<T>)
  {
    forall i, j :: 0 <= i < j < |s| ==> s[i] != s[j]
  }

  /** An element of a non-empty sequence is in its initial part or is its last element. */
  lemma InInitOrLast<T>(s: seq<T>, x: T)
    requires |s| > 0
    ensures x in s <==> x in s[..|s| - 1] || x == s[|s| - 1]
  {
    assert s == s[..|s| - 1] + [s[|s| - 1]];
  }

  /** Dropping the last element keeps a sequence duplicate-free, and that element is not among the rest. */
  lemma NoDuplicatesInit<T>(s: seq<T>)
    requires NoDuplicates(s) && |s| > 0
    ensures NoDuplicates(s[..|s| - 1]) && s[|s| - 1] !in s[..|s| - 1]
  {
  }

  /** `Distinct(s)` lists every element once, ordered by first appearance in `s`. */
  lemma {:induction false} DistinctFirstAppearance<T>(s: seq<T>)
    ensures NoDuplicates(Distinct(s))
    ensures forall i, j :: 0 <= i < j < |Distinct(s)| ==>
              FirstIndex(s, Distinct(s)[i]) < FirstIndex(s, Distinct(s)[j])
  {
    if |s| > 0 {
      var init, last := s[..|s| - 1], s[|s| - 1];
      assert s == init + [last];
      DistinctFirstAppearance(init);
      var r := Distinct(init);
      forall x | x in init
        ensures FirstIndex(s, x) == FirstIndex(init, x)
      {
        FirstIndexUnique(s, x, FirstIndex(init, x));
      }
      if last !in r {
        FirstIndexUnique(s, last, |s| - 1);
        assert Distinct(s) == r + [last];
        forall i | 0 <= i < |r|
          ensures FirstIndex(s, r[i]) < |s| - 1
        {
          assert r[i] in init;
        }
      }
    }
  }
}
