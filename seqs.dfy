/** Generic sequence operations shared by the model: the order-preserving
    filter that the application writes as `Array.prototype.filter`, and the
    subsequence relation used to state that a filter keeps the original order. */
module Seqs {

  /** The elements of `s` for which `keep` holds, in their original order. */
  function Filter<T>(s: seq<T>, keep: T -> bool): (r: seq<T>)
    ensures |r| <= |s|
    decreases |s|
  {
    if s == [] then []
    else (if keep(s[0]) then [s[0]] else []) + Filter(s[1..], keep)
  }

  /** Each value occurs in the result as often as in the input when it passes
      the test, and not at all otherwise. */
  lemma {:induction false} FilterCounts<T(!new)>(s: seq<T>, keep: T -> bool)
    ensures forall x :: multiset(Filter(s, keep))[x] == if keep(x) then multiset(s)[x] else 0
    decreases |s|
  {
    if s != [] {
      FilterCounts(s[1..], keep);
      assert s == [s[0]] + s[1..];
    }
  }

  /** `a` can be obtained from `b` by deleting elements (greedy matching). */
  predicate IsSubsequence<T(==)>(a: seq<T>, b: seq<T>)
    decreases |b|
  {
    if a == [] then true
    else if b == [] then false
    else if a[0] == b[0] then IsSubsequence(a[1..], b[1..])
    else IsSubsequence(a, b[1..])
  }

  lemma {:induction false} SubsequenceDropHead<T>(a: seq<T>, b: seq<T>)
    requires a != [] && IsSubsequence(a, b)
    ensures IsSubsequence(a[1..], b)
    decreases |b|, 0
  {
    if a[0] == b[0] {
      SubsequenceExtend(b[0], a[1..], b[1..]);
    } else {
      SubsequenceDropHead(a, b[1..]);
      SubsequenceExtend(b[0], a[1..], b[1..]);
    }
  }

  /** Putting one more element in front of the longer sequence keeps the relation. */
  lemma {:induction false} SubsequenceExtend<T>(x: T, a: seq<T>, b: seq<T>)
    requires IsSubsequence(a, b)
    ensures IsSubsequence(a, [x] + b)
    decreases |b|, 1
  {
    assert ([x] + b)[1..] == b;
    if a != [] && a[0] == x {
      SubsequenceDropHead(a, b);
    }
  }

  /** The filter drops elements but never reorders the ones it keeps. */
  lemma {:induction false} FilterIsSubsequence<T>(s: seq<T>, keep: T -> bool)
    ensures IsSubsequence(Filter(s, keep), s)
    decreases |s|
  {
    if s != [] {
      FilterIsSubsequence(s[1..], keep);
      var rest := Filter(s[1..], keep);
      if keep(s[0]) {
        assert Filter(s, keep) == [s[0]] + rest;
        assert ([s[0]] + rest)[1..] == rest;
      } else {
        assert Filter(s, keep) == rest;
        SubsequenceExtend(s[0], rest, s[1..]);
        assert [s[0]] + s[1..] == s;
      }
    }
  }

  /** An element is kept exactly when it occurs in the input and passes the test. */
  lemma FilterMembers<T(!new)>(s: seq<T>, keep: T -> bool)
    ensures forall x :: x in Filter(s, keep) <==> x in s && keep(x)
  {
    FilterCounts(s, keep);
    forall x ensures x in Filter(s, keep) <==> x in s && keep(x) {
      assert x in Filter(s, keep) <==> multiset(Filter(s, keep))[x] > 0;
      assert x in s <==> multiset(s)[x] > 0;
    }
  }

  /** Filtering a concatenation filters each part. */
  lemma {:induction false} FilterConcat<T>(a: seq<T>, b: seq<T>, keep: T -> bool)
    ensures Filter(a + b, keep) == Filter(a, keep) + Filter(b, keep)
    decreases |a|
  {
    if a == [] {
      assert a + b == b;
    } else {
      var h := if keep(a[0]) then [a[0]] else [];
      assert (a + b)[0] == a[0] && (a + b)[1..] == a[1..] + b;
      FilterConcat(a[1..], b, keep);
      assert Filter(a + b, keep) == h + Filter(a[1..] + b, keep);
      assert Filter(a, keep) == h + Filter(a[1..], keep);
    }
  }

  /** When every element passes, the filter returns its input unchanged. */
  lemma {:induction false} FilterKeepsAll<T>(s: seq<T>, keep: T -> bool)
    requires forall k :: 0 <= k < |s| ==> keep(s[k])
    ensures Filter(s, keep) == s
    decreases |s|
  {
    if s != [] {
      FilterKeepsAll(s[1..], keep);
    }
  }
}
