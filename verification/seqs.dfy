/** Sums, filters and subsequences over `seq`, the building blocks of every
    report and document total in the model. */
module Seqs {

  /** The sum of `f` over the elements of `s`, in order. */
  function SumOf<T>(s: seq<T>, f: T -> int): int
  {
    if |s| == 0 then 0 else f(s[0]) + SumOf(s[1..], f)
  }

  /** The sum of the real-valued `f` over the elements of `s`, in order. */
  function RealSumOf<T>(s: seq<T>, f: T -> real): real
  {
    if |s| == 0 then 0.0 else f(s[0]) + RealSumOf(s[1..], f)
  }

  /** The elements of `s` that satisfy `p`, in their original order. */
  function Filter<T>(s: seq<T>, p: T -> bool): (r: seq<T>)
    ensures |r| <= |s|
    ensures forall i :: 0 <= i < |r| ==> r[i] in s && p(r[i])
    ensures forall i :: 0 <= i < |s| && p(s[i]) ==> s[i] in r
  {
    if |s| == 0 then []
    else if p(s[0]) then [s[0]] + Filter(s[1..], p)
    else Filter(s[1..], p)
  }

  /** `s` with the element at `index` removed, the rest in order; an index
      past the end removes nothing. */
  function Without<T>(s: seq<T>, index: nat): (r: seq<T>)
    ensures index < |s| ==> |r| == |s| - 1
    ensures index < |s| ==> forall i :: 0 <= i < |r| ==> r[i] == s[if i < index then i else i + 1]
    ensures index >= |s| ==> r == s
  {
    if index < |s| then s[..index] + s[index + 1..] else s
  }

  /** `a` is obtained from `b` by deleting elements, without reordering. */
  predicate IsSubsequence<T(==)>(a: seq<T>, b: seq<T>)
  {
    if |a| == 0 then true
    else if |b| == 0 then false
    else (a[0] == b[0] && IsSubsequence(a[1..], b[1..])) || IsSubsequence(a, b[1..])
  }

  /** Summing over a concatenation adds the two sums. */
  lemma {:induction false} SumOfAppend<T>(a: seq<T>, b: seq<T>, f: T -> int)
    ensures SumOf(a + b, f) == SumOf(a, f) + SumOf(b, f)
  {
    if |a| == 0 {
      assert a + b == b;
    } else {
      assert (a + b)[1..] == a[1..] + b;
      SumOfAppend(a[1..], b, f);
    }
  }

  /** Summing reals over a concatenation adds the two sums. */
  lemma {:induction false} RealSumOfAppend<T>(a: seq<T>, b: seq<T>, f: T -> real)
    ensures RealSumOf(a + b, f) == RealSumOf(a, f) + RealSumOf(b, f)
  {
    if |a| == 0 {
      assert a + b == b;
    } else {
      assert (a + b)[1..] == a[1..] + b;
      RealSumOfAppend(a[1..], b, f);
    }
  }

  /** Filtering a concatenation filters each part. */
  lemma {:induction false} FilterAppend<T>(a: seq<T>, b: seq<T>, p: T -> bool)
    ensures Filter(a + b, p) == Filter(a, p) + Filter(b, p)
  {
    if |a| == 0 {
      assert a + b == b;
    } else {
      assert (a + b)[1..] == a[1..] + b;
      FilterAppend(a[1..], b, p);
    }
  }

  /** A filter keeps every occurrence of an element that passes and none
      of one that fails. */
  lemma {:induction false} FilterMultiset<T>(s: seq<T>, p: T -> bool)
    ensures forall x :: multiset(Filter(s, p))[x] == if p(x) then multiset(s)[x] else 0
  {
    if |s| > 0 {
      FilterMultiset(s[1..], p);
      assert s == [s[0]] + s[1..];
    }
  }

  /** A filter keeps its survivors in their original relative order. */
  lemma {:induction false} FilterIsSubsequence<T>(s: seq<T>, p: T -> bool)
    ensures IsSubsequence(Filter(s, p), s)
  {
    if |s| == 0 {
    } else if p(s[0]) {
      FilterIsSubsequence(s[1..], p);
    } else {
      FilterIsSubsequence(s[1..], p);
      SkipHead(Filter(s[1..], p), s);
    }
  }

  /** Dropping the head of the longer sequence keeps a subsequence one. */
  lemma SkipHead<T>(a: seq<T>, b: seq<T>)
    requires |b| > 0 && IsSubsequence(a, b[1..])
    ensures IsSubsequence(a, b)
  {
  }

  /** Deleting elements twice is deleting elements once. */
  lemma {:induction false} SubsequenceTransitive<T>(a: seq<T>, b: seq<T>, c: seq<T>)
    requires IsSubsequence(a, b) && IsSubsequence(b, c)
    ensures IsSubsequence(a, c)
    decreases |c|
  {
    if |a| > 0 {
      if IsSubsequence(b, c[1..]) {
        SubsequenceTransitive(a, b, c[1..]);
        SkipHead(a, c);
      } else if a[0] == b[0] && IsSubsequence(a[1..], b[1..]) {
        SubsequenceTransitive(a[1..], b[1..], c[1..]);
      } else {
        SubsequenceTransitive(a, b[1..], c[1..]);
        SkipHead(a, c);
      }
    }
  }

  /** An element of the tail is an element of the sequence. */
  lemma InTail<T>(s: seq<T>, x: T)
    requires |s| > 0 && x in s[1..]
    ensures x in s
  {
    var j :| 0 <= j < |s[1..]| && s[1..][j] == x;
    assert s[j + 1] == x;
  }

  /** A filter that every element passes keeps the whole sequence. */
  lemma {:induction false} FilterAll<T>(s: seq<T>, p: T -> bool)
    requires forall i :: 0 <= i < |s| ==> p(s[i])
    ensures Filter(s, p) == s
  {
    if |s| > 0 {
      FilterAll(s[1..], p);
    }
  }

  /** A filter no element passes keeps nothing. */
  lemma {:induction false} FilterNone<T>(s: seq<T>, p: T -> bool)
    requires forall i :: 0 <= i < |s| ==> !p(s[i])
    ensures Filter(s, p) == []
  {
    if |s| > 0 {
      FilterNone(s[1..], p);
    }
  }

  /** A sum of strictly positive terms is non-negative. */
  lemma {:induction false} SumOfPositive<T>(s: seq<T>, f: T -> int)
    requires forall i :: 0 <= i < |s| ==> f(s[i]) > 0
    ensures SumOf(s, f) >= 0
  {
    if |s| > 0 {
      SumOfPositive(s[1..], f);
    }
  }

  /** Pointwise equal summands give equal sums. */
  lemma {:induction false} SumOfCongruent<T>(s: seq<T>, f: T -> int, g: T -> int)
    requires forall i :: 0 <= i < |s| ==> f(s[i]) == g(s[i])
    ensures SumOf(s, f) == SumOf(s, g)
  {
    if |s| > 0 {
      SumOfCongruent(s[1..], f, g);
    }
  }

  /** A property of each element of `s` carries over to the same element
      once `s` sits between a first and a last element. */
  lemma Shifted<A, B>(first: A, s: seq<A>, last: A, f: A -> B, ys: seq<B>)
    requires |s| == |ys|
    requires forall i :: 0 <= i < |s| ==> f(s[i]) == ys[i]
    ensures forall i :: 0 <= i < |s| ==> f(([first] + s + [last])[i + 1]) == ys[i]
  {
    forall i | 0 <= i < |s| ensures f(([first] + s + [last])[i + 1]) == ys[i] {
      assert ([first] + s + [last])[i + 1] == s[i];
    }
  }
}
