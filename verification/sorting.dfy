/** Python's `sorted(xs, key=f)`: a stable sort by a key, here an insertion
    sort, with the byte-wise lexicographic order Python 2 uses on `str`. */
module Sorting {

  /** `le` is total (hence reflexive) and transitive. */
  ghost predicate TotalPreorder<K(!new)>(le: (K, K) -> bool)
  {
    && (forall a, b :: le(a, b) || le(b, a))
    && (forall a, b, c :: le(a, b) && le(b, c) ==> le(a, c))
  }

  ghost predicate SortedBy<T, K>(xs: seq<T>, key: T -> K, le: (K, K) -> bool)
  {
    forall i, j :: 0 <= i < j < |xs| ==> le(key(xs[i]), key(xs[j]))
  }

  /** Places `x` before the first element whose key is not below its own. */
  function InsertBy<T, K>(x: T, ys: seq<T>, key: T -> K, le: (K, K) -> bool): (r: seq<T>)
    ensures multiset(r) == multiset(ys) + multiset{x}
  {
    if |ys| == 0 || le(key(x), key(ys[0])) then [x] + ys
    else
      assert ys == [ys[0]] + ys[1..];
      [ys[0]] + InsertBy(x, ys[1..], key, le)
  }

  /** `sorted(xs, key=key)` under the order `le`. */
  function SortBy<T, K>(xs: seq<T>, key: T -> K, le: (K, K) -> bool): (r: seq<T>)
    ensures multiset(r) == multiset(xs)
  {
    if |xs| == 0 then []
    else
      assert xs == [xs[0]] + xs[1..];
      InsertBy(xs[0], SortBy(xs[1..], key, le), key, le)
  }

  lemma {:induction false} InsertBySorted<T, K(!new)>(x: T, ys: seq<T>, key: T -> K, le: (K, K) -> bool)
    requires TotalPreorder(le)
    requires SortedBy(ys, key, le)
    ensures SortedBy(InsertBy(x, ys, key, le), key, le)
  {
    if |ys| > 0 && !le(key(x), key(ys[0])) {
      var rest := InsertBy(x, ys[1..], key, le);
      InsertBySorted(x, ys[1..], key, le);
      var r := [ys[0]] + rest;
      forall j | 0 < j < |r|
        ensures le(key(ys[0]), key(r[j]))
      {
        assert r[j] in multiset(rest);
        if r[j] != x {
          assert r[j] in multiset(ys[1..]);
          var k :| 0 <= k < |ys[1..]| && ys[1..][k] == r[j];
          assert ys[k + 1] == r[j];
        }
      }
    }
  }

  /** The result is ordered by key and holds the same elements. */
  lemma {:induction false} SortBySorted<T, K(!new)>(xs: seq<T>, key: T -> K, le: (K, K) -> bool)
    requires TotalPreorder(le)
    ensures SortedBy(SortBy(xs, key, le), key, le)
  {
    if |xs| > 0 {
      SortBySorted(xs[1..], key, le);
      InsertBySorted(xs[0], SortBy(xs[1..], key, le), key, le);
    }
  }

  /** The elements whose key is `k`, in order. */
  function WithKey<T, K(==)>(xs: seq<T>, key: T -> K, k: K): (r: seq<T>)
    ensures forall i :: 0 <= i < |r| ==> key(r[i]) == k
  {
    if |xs| == 0 then []
    else (if key(xs[0]) == k then [xs[0]] else []) + WithKey(xs[1..], key, k)
  }

  lemma {:induction false} InsertByWithKey<T, K(!new)>(x: T, ys: seq<T>, key: T -> K, le: (K, K) -> bool, k: K)
    requires TotalPreorder(le)
    ensures WithKey(InsertBy(x, ys, key, le), key, k)
         == (if key(x) == k then [x] else []) + WithKey(ys, key, k)
  {
    var r := InsertBy(x, ys, key, le);
    if |ys| == 0 || le(key(x), key(ys[0])) {
      assert r[1..] == ys;
    } else {
      assert key(ys[0]) != key(x);
      InsertByWithKey(x, ys[1..], key, le, k);
      assert r[1..] == InsertBy(x, ys[1..], key, le);
    }
  }

  /** Stability: the elements sharing any one key keep their relative
      order. */
  lemma {:induction false} SortByStable<T, K(!new)>(xs: seq<T>, key: T -> K, le: (K, K) -> bool, k: K)
    requires TotalPreorder(le)
    ensures WithKey(SortBy(xs, key, le), key, k) == WithKey(xs, key, k)
  {
    if |xs| > 0 {
      SortByStable(xs[1..], key, le, k);
      InsertByWithKey(xs[0], SortBy(xs[1..], key, le), key, le, k);
    }
  }

  // ---------------------------------------------------------------------
  // Python 2 string comparison

  /** `a <= b` on byte strings: lexicographic by character code, a proper
      prefix coming first. */
  predicate LexLe(a: string, b: string)
  {
    if |a| == 0 then true
    else if |b| == 0 then false
    else if a[0] != b[0] then a[0] < b[0]
    else LexLe(a[1..], b[1..])
  }

  lemma {:induction false} LexLeTotal(a: string, b: string)
    ensures LexLe(a, b) || LexLe(b, a)
  {
    if |a| > 0 && |b| > 0 && a[0] == b[0] {
      LexLeTotal(a[1..], b[1..]);
    }
  }

  lemma {:induction false} LexLeTransitive(a: string, b: string, c: string)
    requires LexLe(a, b) && LexLe(b, c)
    ensures LexLe(a, c)
  {
    if |a| > 0 && |b| > 0 && |c| > 0 && a[0] == b[0] && b[0] == c[0] {
      LexLeTransitive(a[1..], b[1..], c[1..]);
    }
  }

  lemma LexLeTotalPreorder()
    ensures TotalPreorder(LexLe)
  {
    forall a: string, b: string
      ensures LexLe(a, b) || LexLe(b, a)
    {
      LexLeTotal(a, b);
    }
    forall a: string, b: string, c: string | LexLe(a, b) && LexLe(b, c)
      ensures LexLe(a, c)
    {
      LexLeTransitive(a, b, c);
    }
  }

  /** `a <= b` on integers. */
  predicate IntLe(a: int, b: int)
  {
    a <= b
  }

  lemma IntLeTotalPreorder()
    ensures TotalPreorder(IntLe)
  {
  }
}
