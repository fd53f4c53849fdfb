/** Generic facts about sequences used throughout the model: ordered filtering,
    sub-sequences, flattening and duplicate-freedom. */
module Seqs {

  /** `r` can be obtained from `xs` by deleting elements (order kept). */
  predicate IsSubsequence<T(==)>(r: seq<T>, xs: seq<T>)
    decreases |xs|
  {
    if |r| == 0 then true
    else if |xs| == 0 then false
    else if r[0] == xs[0] then IsSubsequence(r[1..], xs[1..])
    else IsSubsequence(r, xs[1..])
  }

  /** No element occurs twice. */
  predicate Distinct<T(==)>(xs: seq<T>) {
    forall i, j :: 0 <= i < j < |xs| ==> xs[i] != xs[j]
  }

  /** JavaScript's `Array.prototype.filter`: the elements satisfying `p`, in order. */
  function Filter<T>(p: T -> bool, xs: seq<T>): (r: seq<T>)
    ensures |r| <= |xs|
    ensures forall x :: x in r ==> x in xs && p(x)
    ensures forall x :: x in xs && p(x) ==> x in r
    ensures |r| == |xs| <==> forall i :: 0 <= i < |xs| ==> p(xs[i])
  {
    if |xs| == 0 then []
    else if p(xs[0]) then [xs[0]] + Filter(p, xs[1..])
    else Filter(p, xs[1..])
  }

  /** Filtering distributes over concatenation. */
  lemma {:induction false} FilterAppend<T>(p: T -> bool, a: seq<T>, b: seq<T>)
    ensures Filter(p, a + b) == Filter(p, a) + Filter(p, b)
  {
    if |a| == 0 {
      assert a + b == b;
    } else {
      assert (a + b)[1..] == a[1..] + b;
      FilterAppend(p, a[1..], b);
    }
  }

  /** A filtered sequence is a sub-sequence of its source. */
  lemma {:induction false} FilterIsSubsequence<T>(p: T -> bool, xs: seq<T>)
    ensures IsSubsequence(Filter(p, xs), xs)
  {
    if |xs| > 0 {
      FilterIsSubsequence(p, xs[1..]);
      if !p(xs[0]) {
        SubsequenceOfTail(Filter(p, xs), xs);
      }
    }
  }

  /** Dropping the head of the source keeps a sub-sequence a sub-sequence. */
  lemma {:induction false} SubsequenceOfTail<T>(r: seq<T>, xs: seq<T>)
    requires |xs| > 0 && IsSubsequence(r, xs[1..])
    ensures IsSubsequence(r, xs)
    decreases |xs|, |r|, 1
  {
    if |r| > 0 && r[0] == xs[0] {
      assert IsSubsequence(r[1..], xs[1..]) by { SubsequenceDropHead(r, xs[1..]); }
    }
  }

  /** Dropping the head of a sub-sequence keeps it a sub-sequence. */
  lemma {:induction false} SubsequenceDropHead<T>(r: seq<T>, xs: seq<T>)
    requires |r| > 0 && IsSubsequence(r, xs)
    ensures IsSubsequence(r[1..], xs)
    decreases |xs|, |r|, 0
  {
    if r[0] == xs[0] {
      assert IsSubsequence(r[1..], xs[1..]);
      SubsequenceOfTail(r[1..], xs);
    } else {
      SubsequenceDropHead(r, xs[1..]);
      SubsequenceOfTail(r[1..], xs);
    }
  }

  /** Every element of a sub-sequence is an element of the source. */
  lemma {:induction false} SubsequenceElements<T>(r: seq<T>, xs: seq<T>)
    requires IsSubsequence(r, xs)
    ensures forall x :: x in r ==> x in xs
    decreases |xs|
  {
    if |r| > 0 {
      if r[0] == xs[0] {
        SubsequenceElements(r[1..], xs[1..]);
        forall x | x in r ensures x in xs {
          if x != r[0] { assert x in r[1..]; }
        }
      } else {
        SubsequenceElements(r, xs[1..]);
      }
    }
  }

  /** A sub-sequence of a duplicate-free sequence is duplicate-free. */
  lemma {:induction false} SubsequenceDistinct<T>(r: seq<T>, xs: seq<T>)
    requires IsSubsequence(r, xs) && Distinct(xs)
    ensures Distinct(r)
    decreases |xs|
  {
    if |r| > 0 {
      if r[0] == xs[0] {
        assert Distinct(xs[1..]);
        SubsequenceDistinct(r[1..], xs[1..]);
        SubsequenceElements(r[1..], xs[1..]);
        forall j | 0 < j < |r| ensures r[0] != r[j] {
          assert r[j] in r[1..];
          assert r[j] in xs[1..];
        }
      } else {
        assert Distinct(xs[1..]);
        SubsequenceDistinct(r, xs[1..]);
      }
    }
  }

  /** Concatenating two duplicate-free sequences with no common element is duplicate-free. */
  lemma DistinctAppend<T>(a: seq<T>, b: seq<T>)
    requires Distinct(a) && Distinct(b)
    requires forall x :: x in a ==> x !in b
    ensures Distinct(a + b)
  {
    forall i, j | 0 <= i < j < |a + b| ensures (a + b)[i] != (a + b)[j] {
      if j >= |a| && i < |a| {
        assert (a + b)[i] in a;
        assert (a + b)[j] == b[j - |a|];
      }
    }
  }

  /** JavaScript's `Array.prototype.flat()` on an array of arrays. */
  function Flatten<T>(xss: seq<seq<T>>): (r: seq<T>)
    ensures forall x :: x in r ==> exists i :: 0 <= i < |xss| && x in xss[i]
    ensures forall i, x :: 0 <= i < |xss| && x in xss[i] ==> x in r
  {
    if |xss| == 0 then [] else xss[0] + Flatten(xss[1..])
  }

  /** JavaScript's `slice(0, n)`: the first `n` elements, or all of them when fewer. */
  function Take<T>(xs: seq<T>, n: nat): (r: seq<T>)
    ensures |r| == if |xs| < n then |xs| else n
    ensures forall i :: 0 <= i < |r| ==> r[i] == xs[i]
  {
    if |xs| <= n then xs else xs[..n]
  }

  /** A prefix of a sub-sequence is still a sub-sequence. */
  lemma {:induction false} PrefixOfSubsequence<T>(r: seq<T>, xs: seq<T>, n: nat)
    requires IsSubsequence(r, xs) && n <= |r|
    ensures IsSubsequence(r[..n], xs)
    decreases |xs|
  {
    if n > 0 {
      if r[0] == xs[0] {
        PrefixOfSubsequence(r[1..], xs[1..], n - 1);
        assert r[..n][1..] == r[1..][..n - 1];
      } else {
        PrefixOfSubsequence(r, xs[1..], n);
      }
    }
  }
}
