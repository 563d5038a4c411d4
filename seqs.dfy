/** `Array.prototype.filter`, and what the list pages rely on about it: it
    keeps exactly the elements that pass the test, in their original order. */
module Seqs {

  /** `a` can be obtained from `b` by deleting elements. */
  predicate IsSubsequence<T(==)>(a: seq<T>, b: seq<T>)
    decreases |b|
  {
    || a == []
    || (b != [] && ((a[0] == b[0] && IsSubsequence(a[1..], b[1..])) || IsSubsequence(a, b[1..])))
  }

  /** `s.filter(keep)`. */
  function Filter<T>(s: seq<T>, keep: T -> bool): (r: seq<T>)
    ensures |r| <= |s|
    ensures forall x :: x in r ==> x in s && keep(x)
    ensures forall x :: x in s && keep(x) ==> x in r
  {
    if s == [] then []
    else (if keep(s[0]) then [s[0]] else []) + Filter(s[1..], keep)
  }

  /** The filter keeps the order of what it keeps. */
  lemma {:induction false} FilterIsSubsequence<T>(s: seq<T>, keep: T -> bool)
    ensures IsSubsequence(Filter(s, keep), s)
  {
    if s != [] {
      FilterIsSubsequence(s[1..], keep);
      var r := Filter(s, keep);
      if keep(s[0]) {
        assert r[0] == s[0] && r[1..] == Filter(s[1..], keep);
      } else {
        assert r == Filter(s[1..], keep);
      }
    }
  }

  /** A test every element passes keeps the whole sequence. */
  lemma {:induction false} FilterAll<T>(s: seq<T>, keep: T -> bool)
    requires forall x :: x in s ==> keep(x)
    ensures Filter(s, keep) == s
  {
    if s != [] {
      FilterAll(s[1..], keep);
      assert [s[0]] + s[1..] == s;
    }
  }
}
