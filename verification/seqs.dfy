/** Sums of counters, distinctness and the multiset facts that the
    allocation simulator and the reward table rely on. */
module Seqs {

  /** The sum of `f` over a sequence, peeling off the last element. */
  function SumBy<T>(s: seq<T>, f: T -> int): int
  {
    if |s| == 0 then 0 else SumBy(s[..|s| - 1], f) + f(s[|s| - 1])
  }

  /** Summation distributes over concatenation. */
  lemma {:induction false} SumByConcat<T>(a: seq<T>, b: seq<T>, f: T -> int)
    ensures SumBy(a + b, f) == SumBy(a, f) + SumBy(b, f)
  {
    if |b| == 0 {
      assert a + b == a;
    } else {
      var b' := b[..|b| - 1];
      assert (a + b)[..|a + b| - 1] == a + b';
      SumByConcat(a, b', f);
    }
  }

  /** The sum is the first element's value plus the sum of the rest. */
  lemma SumByFirst<T>(s: seq<T>, f: T -> int)
    requires |s| > 0
    ensures SumBy(s, f) == f(s[0]) + SumBy(s[1..], f)
  {
    assert s == [s[0]] + s[1..];
    SumByConcat([s[0]], s[1..], f);
    assert [s[0]][..0] == [];
  }

  /** A counter's contribution to a sum. */
  function AsInt(n: nat): int { n }

  /** Sums of counters are never negative. */
  lemma {:induction false} CountersSumNonNegative(s: seq<nat>)
    ensures SumBy(s, AsInt) >= 0
  {
    if |s| > 0 {
      CountersSumNonNegative(s[..|s| - 1]);
    }
  }

  /** Sum of a sequence of counters. */
  function Sum(s: seq<nat>): nat
  {
    CountersSumNonNegative(s);
    SumBy(s, AsInt)
  }

  /** Summation of counters distributes over concatenation. */
  lemma SumConcat(a: seq<nat>, b: seq<nat>)
    ensures Sum(a + b) == Sum(a) + Sum(b)
  {
    SumByConcat(a, b, AsInt);
  }

  /** Replacing one counter changes the sum by exactly the difference. */
  lemma {:induction false} SumUpdate(s: seq<nat>, i: int, v: nat)
    requires 0 <= i < |s|
    ensures Sum(s[i := v]) + s[i] == Sum(s) + v
  {
    var m := |s| - 1;
    if i == m {
      assert s[i := v][..m] == s[..m];
    } else {
      assert s[i := v][..m] == s[..m][i := v];
      SumUpdate(s[..m], i, v);
    }
  }

  /** A sequence of counters each at most `bound` sums to at most `|s| * bound`. */
  lemma {:induction false} SumBound(s: seq<nat>, bound: nat)
    requires forall k :: 0 <= k < |s| ==> s[k] <= bound
    ensures Sum(s) <= |s| * bound
  {
    if |s| > 0 {
      SumBound(s[..|s| - 1], bound);
    }
  }

  /** A fresh counter table sums to zero. */
  lemma {:induction false} SumZeros(n: nat)
    ensures Sum(seq(n, _ => 0)) == 0
  {
    if n > 0 {
      assert seq(n, _ => 0)[..n - 1] == seq(n - 1, _ => 0);
      SumZeros(n - 1);
    }
  }

  /** No element occurs twice. */
  predicate Distinct<T(==)>(s: seq<T>)
  {
    forall i, j :: 0 <= i < j < |s| ==> s[i] != s[j]
  }

  /** No two elements share a key. */
  predicate DistinctKeys<T>(s: seq<T>, key: T -> int)
  {
    forall i, j :: 0 <= i < j < |s| ==> key(s[i]) != key(s[j])
  }

  /** In a sequence without repetitions every value occurs at most once. */
  lemma {:induction false} DistinctOccursOnce<T>(s: seq<T>, x: T)
    requires Distinct(s)
    ensures multiset(s)[x] <= 1
  {
    if |s| > 0 {
      var t := s[1..];
      assert s == [s[0]] + t;
      assert Distinct(t);
      DistinctOccursOnce(t, x);
      if x == s[0] {
        assert x !in t;
        assert multiset(t)[x] == 0;
      }
    }
  }

  /** A value found at two positions occurs at least twice. */
  lemma RepeatOccursTwice<T>(s: seq<T>, i: int, j: int)
    requires 0 <= i < j < |s| && s[i] == s[j]
    ensures multiset(s)[s[i]] >= 2
  {
    assert s == s[..i] + [s[i]] + s[i + 1..j] + [s[j]] + s[j + 1..];
  }

  /** Reordering a sequence whose keys are distinct keeps them distinct. */
  lemma PermutationKeepsDistinctKeys<T>(a: seq<T>, b: seq<T>, key: T -> int)
    requires multiset(a) == multiset(b)
    requires DistinctKeys(b, key)
    ensures DistinctKeys(a, key)
  {
    forall i, j | 0 <= i < j < |a|
      ensures key(a[i]) != key(a[j])
    {
      if a[i] == a[j] {
        RepeatOccursTwice(a, i, j);
        assert Distinct(b);
        DistinctOccursOnce(b, a[i]);
        assert false;
      }
      assert a[i] in multiset(b) && a[j] in multiset(b);
      var p :| 0 <= p < |b| && b[p] == a[i];
      var q :| 0 <= q < |b| && b[q] == a[j];
      assert p != q;
    }
  }
}
