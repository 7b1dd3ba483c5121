/** Filtering and mapping of sequences, the two halves of a Python list
    comprehension `[f(x) for x in s if p(x)]`. */
module Seqs {

  /** The elements of `s` satisfying `p`, in their original order. */
  function Filter<T>(p: T -> bool, s: seq<T>): (r: seq<T>)
    ensures |r| <= |s|
    ensures forall x :: x in r ==> x in s && p(x)
  {
    if |s| == 0 then []
    else (if p(s[0]) then [s[0]] else []) + Filter(p, s[1..])
  }

  /** `f` applied to every element of `s`. */
  function Map<T, U>(f: T -> U, s: seq<T>): (r: seq<U>)
    ensures |r| == |s|
    ensures forall k :: 0 <= k < |s| ==> r[k] == f(s[k])
  {
    if |s| == 0 then [] else [f(s[0])] + Map(f, s[1..])
  }

  /** Filtering a concatenation filters each part. */
  lemma {:induction false} FilterAppend<T>(p: T -> bool, a: seq<T>, b: seq<T>)
    ensures Filter(p, a + b) == Filter(p, a) + Filter(p, b)
  {
    if |a| == 0 {
      assert a + b == b;
    } else {
      assert (a + b)[1..] == a[1..] + b;
      FilterAppend(p, a[1..], b);
    }
  }

  /** Mapping a concatenation maps each part. */
  lemma MapAppend<T, U>(f: T -> U, a: seq<T>, b: seq<T>)
    ensures Map(f, a + b) == Map(f, a) + Map(f, b)
  {
  }

  /** Every element of `s` that satisfies `p` survives the filter. */
  lemma {:induction false} FilterKeeps<T>(p: T -> bool, s: seq<T>, x: T)
    requires x in s && p(x)
    ensures x in Filter(p, s)
  {
    if s[0] != x {
      FilterKeeps(p, s[1..], x);
    }
  }

  /** Nothing survives a filter that rejects every element. */
  lemma {:induction false} FilterNone<T>(p: T -> bool, s: seq<T>)
    requires forall x :: x in s ==> !p(x)
    ensures Filter(p, s) == []
  {
    if |s| > 0 {
      assert s[0] in s;
      FilterNone(p, s[1..]);
    }
  }

  /** The positions of `s` whose elements satisfy `p`, in increasing order. */
  function FilterIndices<T>(p: T -> bool, s: seq<T>): seq<nat>
  {
    if |s| == 0 then []
    else
      var tail := Shift(FilterIndices(p, s[1..]));
      if p(s[0]) then [0] + tail else tail
  }

  /** Every position moved one place to the right. */
  function Shift(t: seq<nat>): seq<nat>
  {
    seq(|t|, k requires 0 <= k < |t| => t[k] + 1)
  }

  /** `Filter(p, s)` is the subsequence of `s` taken at the positions
      `FilterIndices(p, s)`. */
  lemma {:induction false} FilterIndicesSelect<T>(p: T -> bool, s: seq<T>)
    ensures |FilterIndices(p, s)| == |Filter(p, s)|
    ensures forall k :: 0 <= k < |FilterIndices(p, s)| ==>
      FilterIndices(p, s)[k] < |s| && s[FilterIndices(p, s)[k]] == Filter(p, s)[k]
  {
    if |s| > 0 {
      FilterIndicesSelect(p, s[1..]);
    }
  }

  /** The positions `FilterIndices(p, s)` strictly increase, so the filter keeps
      the original order and takes no element twice. */
  lemma {:induction false} FilterIndicesIncreasing<T>(p: T -> bool, s: seq<T>)
    ensures forall k, l :: 0 <= k < l < |FilterIndices(p, s)| ==>
      FilterIndices(p, s)[k] < FilterIndices(p, s)[l]
  {
    if |s| > 0 {
      FilterIndicesIncreasing(p, s[1..]);
      var tail := Shift(FilterIndices(p, s[1..]));
      assert forall k :: 0 <= k < |tail| ==> tail[k] > 0;
    }
  }

  /** A position is among `FilterIndices(p, s)` exactly when its element
      satisfies `p`: the filter drops nothing it should keep. */
  lemma {:induction false} FilterIndicesComplete<T>(p: T -> bool, s: seq<T>, j: nat)
    requires j < |s|
    ensures p(s[j]) <==> j in FilterIndices(p, s)
  {
    var tail := FilterIndices(p, s[1..]);
    var shifted := Shift(tail);
    assert FilterIndices(p, s) == if p(s[0]) then [0] + shifted else shifted;
    assert 0 !in shifted;
    if j > 0 {
      FilterIndicesComplete(p, s[1..], j - 1);
      if j - 1 in tail {
        var k :| 0 <= k < |tail| && tail[k] == j - 1;
        assert shifted[k] == j;
      }
      assert j in shifted ==> j - 1 in tail;
    }
  }
}
