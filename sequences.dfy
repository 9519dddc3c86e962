/**
 * `Array.prototype.filter` and `Array.prototype.sort` over sequences, with the
 * facts the pages rely on: a filter keeps exactly the matching elements in
 * their original order, and a sort only reorders.
 */
module Sequences {

  /** `filter`: the elements of s that satisfy p, in their original order. */
  function Filter<T>(s: seq<T>, p: T -> bool): (r: seq<T>)
    ensures |r| <= |s|
    ensures forall i :: 0 <= i < |r| ==> p(r[i])
    ensures multiset(r) <= multiset(s)
  {
    if s == [] then []
    else
      assert s == [s[0]] + s[1..];
      (if p(s[0]) then [s[0]] else []) + Filter(s[1..], p)
  }

  /** The membership fact for every value at once. */
  lemma FilterMembersAll<T>(s: seq<T>, p: T -> bool)
    ensures forall x :: x in Filter(s, p) <==> x in s && p(x)
  {
    forall x ensures x in Filter(s, p) <==> x in s && p(x) {
      FilterMembers(s, p, x);
    }
  }

  /** a can be obtained from b by deleting elements (order is preserved). */
  predicate IsSubsequence<T(==)>(a: seq<T>, b: seq<T>)
    decreases |b|
  {
    if a == [] then true
    else if b == [] then false
    else if a[0] == b[0] then IsSubsequence(a[1..], b[1..])
    else IsSubsequence(a, b[1..])
  }

  /** An element is kept exactly when it occurs in s and satisfies p. */
  lemma {:induction false} FilterMembers<T>(s: seq<T>, p: T -> bool, x: T)
    ensures x in Filter(s, p) <==> x in s && p(x)
  {
    if s != [] {
      FilterMembers(s[1..], p, x);
      assert s == [s[0]] + s[1..];
    }
  }

  /** Putting an element in front of b keeps every subsequence of b a subsequence. */
  lemma {:induction false} SubsequenceOfTail<T>(a: seq<T>, b: seq<T>, y: T)
    requires IsSubsequence(a, b)
    ensures IsSubsequence(a, [y] + b)
    decreases |b|, 1
  {
    var b' := [y] + b;
    assert b'[1..] == b;
    if a != [] && a[0] == y {
      SubsequenceDropFirst(a, b);
    }
  }

  /** Dropping the first element of a subsequence leaves a subsequence. */
  lemma {:induction false} SubsequenceDropFirst<T>(a: seq<T>, b: seq<T>)
    requires a != [] && IsSubsequence(a, b)
    ensures IsSubsequence(a[1..], b)
    decreases |b|, 0
  {
    assert b != [];
    assert [b[0]] + b[1..] == b;
    if a[0] == b[0] {
      SubsequenceOfTail(a[1..], b[1..], b[0]);
    } else {
      SubsequenceDropFirst(a, b[1..]);
      SubsequenceOfTail(a[1..], b[1..], b[0]);
    }
  }

  /** `filter` keeps the original order: its result is a subsequence of its input. */
  lemma {:induction false} FilterIsSubsequence<T>(s: seq<T>, p: T -> bool)
    ensures IsSubsequence(Filter(s, p), s)
  {
    if s != [] {
      FilterIsSubsequence(s[1..], p);
      var rest := Filter(s[1..], p);
      if p(s[0]) {
        assert Filter(s, p) == [s[0]] + rest;
        assert ([s[0]] + rest)[1..] == rest;
      } else {
        assert Filter(s, p) == rest;
        SubsequenceOfTail(rest, s[1..], s[0]);
        assert [s[0]] + s[1..] == s;
      }
    }
  }

  /** A filter that every element passes returns its input unchanged. */
  lemma {:induction false} FilterAllPass<T>(s: seq<T>, p: T -> bool)
    requires forall i :: 0 <= i < |s| ==> p(s[i])
    ensures Filter(s, p) == s
  {
    if s != [] {
      FilterAllPass(s[1..], p);
      assert [s[0]] + s[1..] == s;
    }
  }

  /** The result is empty exactly when no element satisfies p. */
  lemma FilterEmpty<T>(s: seq<T>, p: T -> bool)
    ensures Filter(s, p) == [] <==> forall i :: 0 <= i < |s| ==> !p(s[i])
  {
    if Filter(s, p) == [] {
      forall i | 0 <= i < |s| ensures !p(s[i]) {
        FilterMembers(s, p, s[i]);
      }
    } else {
      var x := Filter(s, p)[0];
      FilterMembers(s, p, x);
      var i :| 0 <= i < |s| && s[i] == x;
    }
  }

  /** Filtering twice is filtering once by the conjunction. */
  lemma {:induction false} FilterFilter<T>(s: seq<T>, p: T -> bool, q: T -> bool, pq: T -> bool)
    requires forall x :: pq(x) == (p(x) && q(x))
    ensures Filter(Filter(s, p), q) == Filter(s, pq)
  {
    if s != [] {
      var x, t := s[0], s[1..];
      FilterFilter(t, p, q, pq);
      var f := Filter(s, p);
      if p(x) {
        assert f == [x] + Filter(t, p);
        assert f != [] && f[0] == x && f[1..] == Filter(t, p);
        assert Filter(f, q) == (if q(x) then [x] else []) + Filter(Filter(t, p), q);
        assert Filter(s, pq) == (if pq(x) then [x] else []) + Filter(t, pq);
      } else {
        assert f == Filter(t, p);
        assert Filter(s, pq) == Filter(t, pq);
      }
    }
  }

  /** Inserts x before the first element it is ordered before. */
  function Insert<T>(x: T, s: seq<T>, before: (T, T) -> bool): (r: seq<T>)
    ensures multiset(r) == multiset(s) + multiset{x}
  {
    if s == [] || before(x, s[0]) then [x] + s
    else
      assert s == [s[0]] + s[1..];
      [s[0]] + Insert(x, s[1..], before)
  }

  /**
   * `sort` with a comparator, here as an insertion sort by the relation
   * "comparator result is negative". Whatever the relation, it only reorders.
   */
  function SortWith<T>(s: seq<T>, before: (T, T) -> bool): (r: seq<T>)
    ensures multiset(r) == multiset(s)
  {
    if s == [] then []
    else
      assert s == [s[0]] + s[1..];
      Insert(s[0], SortWith(s[1..], before), before)
  }
}
