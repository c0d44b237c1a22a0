/**
 * Python's `sorted(xs, key=key, reverse=True)` and `xs.sort(key=key,
 * reverse=True)`: a stable sort by non-increasing key. Python documents that
 * `reverse=True` still keeps records with equal keys in their original order.
 */
module StableSort {

  /** Keys never increase from left to right. */
  predicate NonIncreasing<T>(s: seq<T>, key: T -> int) {
    forall i, j :: 0 <= i < j < |s| ==> key(s[i]) >= key(s[j])
  }

  /** The elements of `s` whose key is `v`, in their order in `s`. */
  function WithKey<T>(s: seq<T>, key: T -> int, v: int): seq<T> {
    if s == [] then []
    else (if key(s[0]) == v then [s[0]] else []) + WithKey(s[1..], key, v)
  }

  /** `r` is what a stable sort by non-increasing key makes of `xs`: ordered,
      and for every key the elements carrying it are in their input order. */
  ghost predicate IsStableSortDesc<T>(xs: seq<T>, r: seq<T>, key: T -> int) {
    NonIncreasing(r, key) && forall v :: WithKey(r, key, v) == WithKey(xs, key, v)
  }

  lemma SeqAssoc<T>(x: seq<T>, y: seq<T>, z: seq<T>)
    ensures x + (y + z) == (x + y) + z
  {
  }

  /** Places `x` in front of the first element whose key is not larger. */
  function InsertDesc<T>(x: T, s: seq<T>, key: T -> int): (r: seq<T>)
    ensures |r| == |s| + 1
    ensures multiset(r) == multiset(s) + multiset{x}
  {
    if s == [] || key(s[0]) <= key(x) then [x] + s
    else
      assert s == [s[0]] + s[1..];
      [s[0]] + InsertDesc(x, s[1..], key)
  }

  /** The stable sort, as insertion from the back. */
  function SortDesc<T>(xs: seq<T>, key: T -> int): (r: seq<T>)
    ensures |r| == |xs|
    ensures multiset(r) == multiset(xs)
  {
    if xs == [] then []
    else
      assert xs == [xs[0]] + xs[1..];
      InsertDesc(xs[0], SortDesc(xs[1..], key), key)
  }

  lemma {:induction false} InsertDescOrdered<T>(x: T, s: seq<T>, key: T -> int)
    requires NonIncreasing(s, key)
    ensures NonIncreasing(InsertDesc(x, s, key), key)
  {
    if s != [] && key(s[0]) > key(x) {
      InsertDescOrdered(x, s[1..], key);
      var t := InsertDesc(x, s[1..], key);
      forall k | 0 <= k < |t| ensures key(s[0]) >= key(t[k]) {
        assert t[k] in multiset(t);
        assert t[k] in multiset(s[1..]) + multiset{x};
        if t[k] != x {
          var m :| 0 <= m < |s[1..]| && s[1..][m] == t[k];
          assert s[m + 1] == t[k];
        }
      }
    }
  }

  /** The result of `SortDesc` is ordered by non-increasing key. */
  lemma {:induction false} SortDescOrdered<T>(xs: seq<T>, key: T -> int)
    ensures NonIncreasing(SortDesc(xs, key), key)
  {
    if xs != [] {
      SortDescOrdered(xs[1..], key);
      InsertDescOrdered(xs[0], SortDesc(xs[1..], key), key);
    }
  }

  lemma {:induction false} WithKeyAppend<T>(a: seq<T>, b: seq<T>, key: T -> int, v: int)
    ensures WithKey(a + b, key, v) == WithKey(a, key, v) + WithKey(b, key, v)
  {
    if a != [] {
      assert (a + b)[1..] == a[1..] + b;
      WithKeyAppend(a[1..], b, key, v);
    } else {
      assert a + b == b;
    }
  }

  lemma WithKeyCons<T>(y: T, rest: seq<T>, key: T -> int, v: int)
    ensures WithKey([y] + rest, key, v) == (if key(y) == v then [y] else []) + WithKey(rest, key, v)
  {
    assert ([y] + rest)[1..] == rest;
  }

  /** Inserting `x` passes only elements with a strictly larger key, so it
      lands in front of every element that shares its key. */
  lemma {:induction false} InsertDescWithKey<T>(x: T, s: seq<T>, key: T -> int, v: int)
    ensures WithKey(InsertDesc(x, s, key), key, v)
         == (if key(x) == v then [x] else []) + WithKey(s, key, v)
  {
    if s == [] || key(s[0]) <= key(x) {
      WithKeyCons(x, s, key, v);
    } else {
      var t := InsertDesc(x, s[1..], key);
      assert InsertDesc(x, s, key) == [s[0]] + t;
      assert s == [s[0]] + s[1..];
      InsertDescWithKey(x, s[1..], key, v);
      WithKeyCons(s[0], t, key, v);
      WithKeyCons(s[0], s[1..], key, v);
      if key(s[0]) == v {
        assert WithKey([s[0]] + t, key, v) == [s[0]] + WithKey(t, key, v);
        assert WithKey(t, key, v) == WithKey(s[1..], key, v);
      } else {
        assert WithKey([s[0]] + t, key, v) == WithKey(t, key, v);
        assert WithKey(s, key, v) == WithKey(s[1..], key, v);
      }
    }
  }

  /** Stability: for every key, the elements carrying it keep their order. */
  lemma {:induction false} SortDescStable<T>(xs: seq<T>, key: T -> int, v: int)
    ensures WithKey(SortDesc(xs, key), key, v) == WithKey(xs, key, v)
  {
    if xs != [] {
      SortDescStable(xs[1..], key, v);
      InsertDescWithKey(xs[0], SortDesc(xs[1..], key), key, v);
    }
  }

  /** `SortDesc` is a stable sort by non-increasing key. */
  lemma SortDescIsStableSort<T>(xs: seq<T>, key: T -> int)
    ensures IsStableSortDesc(xs, SortDesc(xs, key), key)
  {
    SortDescOrdered(xs, key);
    forall v ensures WithKey(SortDesc(xs, key), key, v) == WithKey(xs, key, v) {
      SortDescStable(xs, key, v);
    }
  }

  lemma {:induction false} WithKeyEmpty<T>(s: seq<T>, key: T -> int, v: int)
    ensures WithKey(s, key, v) == [] <==> forall i :: 0 <= i < |s| ==> key(s[i]) != v
  {
    if s != [] {
      WithKeyEmpty(s[1..], key, v);
      if key(s[0]) != v {
        forall i | 0 < i < |s| ensures key(s[i]) == key(s[1..][i - 1]) { }
      }
    }
  }

  /** There is only one stable sort by non-increasing key: two ordered
      sequences that agree on the elements of every key are equal. So
      `SortDesc` computes exactly what Python's stable sort computes. */
  lemma {:induction false} StableSortDescUnique<T>(a: seq<T>, b: seq<T>, key: T -> int)
    requires NonIncreasing(a, key) && NonIncreasing(b, key)
    requires forall v :: WithKey(a, key, v) == WithKey(b, key, v)
    ensures a == b
  {
    if a == [] || b == [] {
      if a != [] {
        WithKeyEmpty(a, key, key(a[0]));
        WithKeyEmpty(b, key, key(a[0]));
      } else if b != [] {
        WithKeyEmpty(a, key, key(b[0]));
        WithKeyEmpty(b, key, key(b[0]));
      }
    } else {
      var ka, kb := key(a[0]), key(b[0]);
      WithKeyEmpty(a, key, ka);
      WithKeyEmpty(b, key, ka);
      WithKeyEmpty(a, key, kb);
      WithKeyEmpty(b, key, kb);
      assert ka == kb;
      assert a == [a[0]] + a[1..] && b == [b[0]] + b[1..];
      forall v ensures WithKey(a[1..], key, v) == WithKey(b[1..], key, v) {
        assert WithKey(a, key, v) == WithKey(b, key, v);
        WithKeyCons(a[0], a[1..], key, v);
        WithKeyCons(b[0], b[1..], key, v);
        var wa, wb := WithKey(a[1..], key, v), WithKey(b[1..], key, v);
        if v == ka {
          assert WithKey(a, key, v) == [a[0]] + wa;
          assert WithKey(b, key, v) == [b[0]] + wb;
          assert [a[0]] + wa == [b[0]] + wb;
          assert ([a[0]] + wa)[1..] == wa && ([b[0]] + wb)[1..] == wb;
        } else {
          assert WithKey(a, key, v) == wa;
          assert WithKey(b, key, v) == wb;
        }
      }
      assert WithKey(a, key, ka) == WithKey(b, key, ka);
      WithKeyCons(a[0], a[1..], key, ka);
      WithKeyCons(b[0], b[1..], key, ka);
      assert WithKey(a, key, ka)[0] == a[0];
      assert WithKey(b, key, ka)[0] == b[0];
      StableSortDescUnique(a[1..], b[1..], key);
    }
  }

  /** Any stable sort of `xs` by non-increasing key is `SortDesc(xs, key)`. */
  lemma StableSortIsSortDesc<T>(xs: seq<T>, r: seq<T>, key: T -> int)
    requires IsStableSortDesc(xs, r, key)
    ensures r == SortDesc(xs, key)
  {
    SortDescIsStableSort(xs, key);
    StableSortDescUnique(r, SortDesc(xs, key), key);
  }
}
