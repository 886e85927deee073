/** Order-preserving selection from sequences: JavaScript's `filter` and `flatMap(x => p(x) ? [x] : [])`. */
module Seqs {
  import opened Wrappers

  /** `a` can be obtained from `b` by deleting elements: its elements occur in `b` in the same order. */
  predicate IsSubsequence<T(==)>(a: seq<T>, b: seq<T>)
    decreases |b|
  {
    a == [] || (b != [] && ((a[0] == b[0] && IsSubsequence(a[1..], b[1..])) || IsSubsequence(a, b[1..])))
  }

  /** Number of elements of `s` that satisfy `p`. */
  function Count<T>(s: seq<T>, p: T -> bool): nat {
    if s == [] then 0 else (if p(s[0]) then 1 else 0) + Count(s[1..], p)
  }

  /** `s.filter(p)`: the elements satisfying `p`, in their original order. */
  function Filter<T(==)>(s: seq<T>, p: T -> bool): (r: seq<T>)
    ensures |r| == Count(s, p)
    ensures forall x | x in r :: x in s && p(x)
    ensures forall x | x in s && p(x) :: x in r
    ensures r == [] <==> forall x | x in s :: !p(x)
    ensures IsSubsequence(r, s)
    ensures multiset(r) <= multiset(s)
  {
    if s == [] then []
    else
      assert s == [s[0]] + s[1..];
      if p(s[0]) then [s[0]] + Filter(s[1..], p) else Filter(s[1..], p)
  }

  /** A subsequence of `b` whose elements all satisfy `p` and that has as many elements as `b` has
      satisfying `p` is `b.filter(p)`: the three facts pin the filter down. */
  lemma {:induction false} FilterUnique<T>(a: seq<T>, b: seq<T>, p: T -> bool)
    requires IsSubsequence(a, b)
    requires forall x | x in a :: p(x)
    requires |a| == Count(b, p)
    ensures a == Filter(b, p)
  {
    if b == [] {
    } else if a != [] && a[0] == b[0] && IsSubsequence(a[1..], b[1..]) {
      SubsequenceCount(a[1..], b[1..], p);
      FilterUnique(a[1..], b[1..], p);
    } else {
      // here `a` lies within `b[1..]`, so `b[0]` cannot be one of the selected elements
      SubsequenceCount(a, b[1..], p);
      FilterUnique(a, b[1..], p);
    }
  }

  /** A subsequence of `b` all of whose elements satisfy `p` has at most `Count(b, p)` elements. */
  lemma {:induction false} SubsequenceCount<T>(a: seq<T>, b: seq<T>, p: T -> bool)
    requires IsSubsequence(a, b)
    requires forall x | x in a :: p(x)
    ensures |a| <= Count(b, p)
  {
    if a == [] {
    } else if a[0] == b[0] && IsSubsequence(a[1..], b[1..]) {
      assert a[0] in a;
      SubsequenceCount(a[1..], b[1..], p);
    } else {
      SubsequenceCount(a, b[1..], p);
    }
  }

  /** The index of the first element of `s` satisfying `p`, if any. */
  function FirstIndex<T>(s: seq<T>, p: T -> bool): (i: Option<nat>)
    ensures i.Some? ==> i.value < |s| && p(s[i.value]) && forall j | 0 <= j < i.value :: !p(s[j])
    ensures i.None? ==> forall j | 0 <= j < |s| :: !p(s[j])
  {
    if s == [] then None
    else if p(s[0]) then Some(0)
    else match FirstIndex(s[1..], p)
      case None => None
      case Some(k) => Some(k + 1)
  }

  /** `s.filter(p)[0]` is the first element of `s` satisfying `p`, and the filter is empty
      exactly when there is none. */
  lemma {:induction false} FilterHead<T>(s: seq<T>, p: T -> bool)
    ensures Filter(s, p) == [] <==> FirstIndex(s, p).None?
    ensures Filter(s, p) != [] ==> Filter(s, p)[0] == s[FirstIndex(s, p).value]
  {
    if s != [] && !p(s[0]) {
      FilterHead(s[1..], p);
    }
  }
}
