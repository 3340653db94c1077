/** Order-preserving filtering of sequences, the `Array.prototype.filter` and `slice(0, n)`
    the components use, with the facts about them that the rest of the model relies on. */
module Seqs {

  /** `xs` can be obtained from `ys` by deleting elements: an order-preserving subsequence. */
  predicate SubsequenceOf<T(==)>(xs: seq<T>, ys: seq<T>)
    decreases |ys|
  {
    if xs == [] then true
    else if ys == [] then false
    else (xs[0] == ys[0] && SubsequenceOf(xs[1..], ys[1..])) || SubsequenceOf(xs, ys[1..])
  }

  /** Every prefix of a subsequence is a subsequence too. */
  lemma {:induction false} PrefixOfSubsequence<T>(xs: seq<T>, ys: seq<T>, k: nat)
    requires SubsequenceOf(xs, ys)
    requires k <= |xs|
    ensures SubsequenceOf(xs[..k], ys)
    decreases |ys|
  {
    if k > 0 {
      if xs[0] == ys[0] && SubsequenceOf(xs[1..], ys[1..]) {
        PrefixOfSubsequence(xs[1..], ys[1..], k - 1);
        assert xs[..k][1..] == xs[1..][..k - 1];
      } else {
        PrefixOfSubsequence(xs, ys[1..], k);
      }
    }
  }

  /** The elements of `s` that satisfy `p`, in their original order. */
  function Filter<T(==, !new)>(s: seq<T>, p: T -> bool): (r: seq<T>)
    ensures forall x :: x in r <==> x in s && p(x)
    ensures forall i :: 0 <= i < |r| ==> p(r[i])
    ensures SubsequenceOf(r, s)
    ensures |r| <= |s|
    decreases |s|
  {
    if s == [] then []
    else if p(s[0]) then
      var rest := Filter(s[1..], p);
      assert ([s[0]] + rest)[1..] == rest;
      [s[0]] + rest
    else Filter(s[1..], p)
  }

  /** A sequence's multiset is its head plus the multiset of its tail. */
  lemma MultisetCons<T>(s: seq<T>)
    requires s != []
    ensures multiset(s) == multiset{s[0]} + multiset(s[1..])
  {
    assert s == [s[0]] + s[1..];
  }

  /** The multiset of a filter, one element at a time. */
  lemma FilterMultisetCons<T(!new)>(s: seq<T>, p: T -> bool)
    requires s != []
    ensures multiset(Filter(s, p)) ==
              (if p(s[0]) then multiset{s[0]} else multiset{}) + multiset(Filter(s[1..], p))
  {
  }

  /** Filtering distributes over concatenation. */
  lemma {:induction false} FilterAppend<T(!new)>(a: seq<T>, b: seq<T>, p: T -> bool)
    ensures Filter(a + b, p) == Filter(a, p) + Filter(b, p)
    decreases |a|
  {
    if a == [] {
      assert a + b == b;
    } else {
      assert (a + b)[1..] == a[1..] + b;
      FilterAppend(a[1..], b, p);
    }
  }

  /** Filtering by `p` and then by `q`, one element at a time. */
  lemma FilterTwiceCons<T(!new)>(s: seq<T>, p: T -> bool, q: T -> bool)
    requires s != []
    ensures Filter(Filter(s, p), q) ==
              (if p(s[0]) && q(s[0]) then [s[0]] else []) + Filter(Filter(s[1..], p), q)
  {
    if p(s[0]) {
      var rest := Filter(s[1..], p);
      assert Filter(s, p) == [s[0]] + rest;
      assert ([s[0]] + rest)[1..] == rest;
    }
  }

  /** Two double filters select the same subsequence when their conjunctions agree on `s`. */
  lemma {:induction false} FilterTwiceCongruent<T(!new)>(s: seq<T>, p: T -> bool, q: T -> bool, p2: T -> bool, q2: T -> bool)
    requires forall x :: x in s ==> (p(x) && q(x)) == (p2(x) && q2(x))
    ensures Filter(Filter(s, p), q) == Filter(Filter(s, p2), q2)
    decreases |s|
  {
    if s != [] {
      FilterTwiceCongruent(s[1..], p, q, p2, q2);
      FilterTwiceCons(s, p, q);
      FilterTwiceCons(s, p2, q2);
    }
  }

  /** A second filter that only keeps elements the first one kept anyway can run alone. */
  lemma {:induction false} FilterAbsorbs<T(!new)>(s: seq<T>, p: T -> bool, q: T -> bool)
    requires forall x :: x in s && q(x) ==> p(x)
    ensures Filter(Filter(s, p), q) == Filter(s, q)
    decreases |s|
  {
    if s != [] {
      FilterAbsorbs(s[1..], p, q);
      FilterTwiceCons(s, p, q);
    }
  }

  /** The first `n` elements of `s`, or all of `s` when it is shorter: `s.slice(0, n)`. */
  function Take<T>(s: seq<T>, n: nat): (r: seq<T>)
    ensures |r| <= n && |r| <= |s|
    ensures |r| < n ==> r == s
    ensures r <= s
  {
    if |s| <= n then s else s[..n]
  }

  /** `t` occurs in `s` as a contiguous run (`String.prototype.includes`). */
  predicate Includes<T(==)>(s: seq<T>, t: seq<T>)
    decreases |s|
  {
    t <= s || (s != [] && Includes(s[1..], t))
  }

  /** `t` occurs in `s` starting at offset `i`. */
  predicate OccursAt<T(==)>(s: seq<T>, t: seq<T>, i: int) {
    0 <= i && i + |t| <= |s| && s[i..i + |t|] == t
  }

  /** `Includes` holds exactly when `t` can be found at some offset of `s`. */
  lemma IncludesIffOccurs<T>(s: seq<T>, t: seq<T>)
    ensures Includes(s, t) <==> exists i :: OccursAt(s, t, i)
  {
    if Includes(s, t) {
      var i := IncludedOffset(s, t);
    }
    if exists i :: OccursAt(s, t, i) {
      var i :| OccursAt(s, t, i);
      OccurrenceIncluded(s, t, i);
    }
  }

  /** An offset at which an included run occurs. */
  lemma {:induction false} IncludedOffset<T>(s: seq<T>, t: seq<T>) returns (i: int)
    requires Includes(s, t)
    ensures OccursAt(s, t, i)
    decreases |s|
  {
    if t <= s {
      i := 0;
    } else {
      var j := IncludedOffset(s[1..], t);
      i := j + 1;
      assert s[1..][j..j + |t|] == s[i..i + |t|];
    }
  }

  /** A run found at some offset is included. */
  lemma {:induction false} OccurrenceIncluded<T>(s: seq<T>, t: seq<T>, i: int)
    requires OccursAt(s, t, i)
    ensures Includes(s, t)
    decreases |s|
  {
    if i > 0 {
      assert s[1..][i - 1..i - 1 + |t|] == s[i..i + |t|];
      OccurrenceIncluded(s[1..], t, i - 1);
    }
  }

  /** Whatever surrounds it, a run is included in the sequence built around it. */
  lemma IncludesInside<T>(a: seq<T>, t: seq<T>, b: seq<T>)
    ensures Includes(a + t + b, t)
  {
    assert (a + t + b)[|a|..|a| + |t|] == t;
    OccurrenceIncluded(a + t + b, t, |a|);
  }
}
