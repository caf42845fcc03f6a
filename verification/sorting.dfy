/** Ordering rows by a numeric column, largest first.  Both sorts of the
    reward table (by weight, then by expected reward) go through here. */
module Sorting {
  import opened Seqs

  /** `s` is ordered non-increasingly by `key`. */
  predicate SortedDesc<T>(s: seq<T>, key: T -> real)
  {
    forall i, j :: 0 <= i < j < |s| ==> key(s[i]) >= key(s[j])
  }

  /** Places `x` before the first element whose key does not exceed its own. */
  function Insert<T>(x: T, s: seq<T>, key: T -> real): (r: seq<T>)
    requires SortedDesc(s, key)
    ensures SortedDesc(r, key)
    ensures multiset(r) == multiset(s) + multiset{x}
    ensures |r| == |s| + 1
  {
    if |s| == 0 || key(x) >= key(s[0]) then
      [x] + s
    else
      var rest := Insert(x, s[1..], key);
      assert s == [s[0]] + s[1..];
      forall k | 0 <= k < |rest|
        ensures key(s[0]) >= key(rest[k])
      {
        assert rest[k] in multiset(rest);
        if rest[k] != x {
          assert rest[k] in multiset(s[1..]);
        }
      }
      [s[0]] + rest
  }

  /** Insertion sort, largest key first; equal keys keep their input order. */
  function SortDesc<T>(s: seq<T>, key: T -> real): (r: seq<T>)
    ensures SortedDesc(r, key)
    ensures multiset(r) == multiset(s)
    ensures |r| == |s|
  {
    if |s| == 0 then []
    else
      assert s == [s[0]] + s[1..];
      Insert(s[0], SortDesc(s[1..], key), key)
  }

  /** Sorting a sequence that is already in order leaves it untouched. */
  lemma {:induction false} SortSortedIsIdentity<T>(s: seq<T>, key: T -> real)
    requires SortedDesc(s, key)
    ensures SortDesc(s, key) == s
  {
    if |s| > 0 {
      assert SortedDesc(s[1..], key);
      SortSortedIsIdentity(s[1..], key);
      assert s == [s[0]] + s[1..];
    }
  }

  /** Inserting `x` adds exactly `f(x)` to the sum. */
  lemma {:induction false} InsertKeepsSumBy<T>(x: T, s: seq<T>, key: T -> real, f: T -> int)
    requires SortedDesc(s, key)
    ensures SumBy(Insert(x, s, key), f) == f(x) + SumBy(s, f)
  {
    if |s| == 0 || key(x) >= key(s[0]) {
      SumByFirst([x] + s, f);
      assert ([x] + s)[1..] == s;
    } else {
      var rest := Insert(x, s[1..], key);
      SumByFirst([s[0]] + rest, f);
      assert ([s[0]] + rest)[1..] == rest;
      InsertKeepsSumBy(x, s[1..], key, f);
      SumByFirst(s, f);
    }
  }

  /** Sorting does not change a sum: it is a property of the rows, not their order. */
  lemma {:induction false} SortKeepsSumBy<T>(s: seq<T>, key: T -> real, f: T -> int)
    ensures SumBy(SortDesc(s, key), f) == SumBy(s, f)
  {
    if |s| > 0 {
      SortKeepsSumBy(s[1..], key, f);
      InsertKeepsSumBy(s[0], SortDesc(s[1..], key), key, f);
      SumByFirst(s, f);
    }
  }
}
