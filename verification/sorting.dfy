/** Python's `sorted(xs, key=...)` and `itertools.groupby(xs, key)`.

    `sorted` is stable, so for a strict total order on keys its result is the
    one sorted permutation that keeps equal-key elements in input order;
    `SortBy` computes it by insertion. `sorted(..., reverse=True)` is also
    stable, so it is `SortBy` with the converse order. `GroupBy` cuts a
    sequence into maximal runs of equal keys. */
module Sorting {
  import opened Ordering
  import opened Seqs

  /** No element is followed by one with a smaller key. */
  predicate SortedBy<T, K>(xs: seq<T>, key: T -> K, lt: (K, K) -> bool) {
    forall i, j :: 0 <= i < j < |xs| ==> !lt(key(xs[j]), key(xs[i]))
  }

  /** The elements of `xs` whose key is `k`, in order. */
  function WithKey<T, K(==)>(xs: seq<T>, key: T -> K, k: K): seq<T> {
    if |xs| == 0 then []
    else (if key(xs[0]) == k then [xs[0]] else []) + WithKey(xs[1..], key, k)
  }

  /** Stability: every key's elements keep their relative order. */
  ghost predicate SameKeyOrder<T, K(!new)>(xs: seq<T>, ys: seq<T>, key: T -> K) {
    forall k :: WithKey(xs, key, k) == WithKey(ys, key, k)
  }

  /** Insert `x` after every element whose key is not greater than its own. */
  function Insert<T, K>(x: T, s: seq<T>, key: T -> K, lt: (K, K) -> bool): (r: seq<T>)
    ensures multiset(r) == multiset(s) + multiset{x}
  {
    if |s| == 0 then [x]
    else if lt(key(x), key(s[0])) then [x] + s
    else
      assert s == [s[0]] + s[1..];
      [s[0]] + Insert(x, s[1..], key, lt)
  }

  /** `sorted(xs, key=key)` under the order `lt` on keys. */
  function SortBy<T, K>(xs: seq<T>, key: T -> K, lt: (K, K) -> bool): (r: seq<T>)
    ensures multiset(r) == multiset(xs)
  {
    if |xs| == 0 then []
    else
      assert xs == xs[..|xs| - 1] + [xs[|xs| - 1]];
      Insert(xs[|xs| - 1], SortBy(xs[..|xs| - 1], key, lt), key, lt)
  }

  lemma {:induction false} InsertSorted<T, K(!new)>(x: T, s: seq<T>, key: T -> K, lt: (K, K) -> bool)
    requires StrictTotal(lt) && SortedBy(s, key, lt)
    ensures SortedBy(Insert(x, s, key, lt), key, lt)
  {
    if |s| > 0 && !lt(key(x), key(s[0])) {
      InsertSorted(x, s[1..], key, lt);
      var r := Insert(x, s, key, lt);
      var tail := Insert(x, s[1..], key, lt);
      assert r == [s[0]] + tail;
      forall j | 0 < j < |r| ensures !lt(key(r[j]), key(s[0])) {
        assert r[j] in multiset(tail);
        assert r[j] in multiset(s[1..]) + multiset{x};
        if r[j] != x {
          assert r[j] in s[1..];
          var m :| 0 <= m < |s[1..]| && s[1..][m] == r[j];
          assert s[m + 1] == r[j];
        }
      }
    }
  }

  lemma {:induction false} WithKeyNone<T, K>(xs: seq<T>, key: T -> K, k: K)
    requires forall i :: 0 <= i < |xs| ==> key(xs[i]) != k
    ensures WithKey(xs, key, k) == []
  {
    if |xs| > 0 {
      WithKeyNone(xs[1..], key, k);
    }
  }

  /** In a sorted sequence every element's key is at least the first one's. */
  lemma AboveHead<T, K(!new)>(s: seq<T>, key: T -> K, lt: (K, K) -> bool, a: K, i: int)
    requires StrictTotal(lt) && SortedBy(s, key, lt)
    requires 0 <= i < |s| && lt(a, key(s[0]))
    ensures lt(a, key(s[i]))
  {
    if i > 0 {
      assert !lt(key(s[i]), key(s[0]));
      if key(s[i]) != key(s[0]) {
        assert lt(key(s[0]), key(s[i]));
      }
    }
  }

  /** Once a key of `s` is above `x`'s key, no later element has `x`'s key. */
  predicate AboveStaysAbove<T, K(==)>(x: T, s: seq<T>, key: T -> K, lt: (K, K) -> bool) {
    forall i, j :: 0 <= i <= j < |s| && lt(key(x), key(s[i])) ==> key(s[j]) != key(x)
  }

  lemma SortedAboveStaysAbove<T, K(!new)>(x: T, s: seq<T>, key: T -> K, lt: (K, K) -> bool)
    requires StrictTotal(lt) && SortedBy(s, key, lt)
    ensures AboveStaysAbove(x, s, key, lt)
  {
    forall i, j | 0 <= i <= j < |s| && lt(key(x), key(s[i])) ensures key(s[j]) != key(x) {
      if key(s[j]) != key(s[i]) {
        assert !lt(key(s[j]), key(s[i]));
        assert lt(key(s[i]), key(s[j]));
      }
    }
  }

  lemma {:induction false} InsertStable<T, K>(x: T, s: seq<T>, key: T -> K, lt: (K, K) -> bool, k: K)
    requires AboveStaysAbove(x, s, key, lt)
    ensures WithKey(Insert(x, s, key, lt), key, k)
         == WithKey(s, key, k) + (if key(x) == k then [x] else [])
  {
    if |s| == 0 {
    } else if lt(key(x), key(s[0])) {
      WithKeyCons(x, s, key, k);
      if key(x) == k {
        WithKeyNone(s, key, k);
      }
    } else {
      AboveStaysAboveTail(x, s, key, lt);
      InsertStable(x, s[1..], key, lt, k);
      var h := if key(s[0]) == k then [s[0]] else [];
      var xk := if key(x) == k then [x] else [];
      calc {
        WithKey(Insert(x, s, key, lt), key, k);
        { assert Insert(x, s, key, lt) == [s[0]] + Insert(x, s[1..], key, lt);
          WithKeyCons(s[0], Insert(x, s[1..], key, lt), key, k); }
        h + WithKey(Insert(x, s[1..], key, lt), key, k);
        h + (WithKey(s[1..], key, k) + xk);
        { AppendAssoc(h, WithKey(s[1..], key, k), xk); }
        (h + WithKey(s[1..], key, k)) + xk;
        { WithKeyCons(s[0], s[1..], key, k); assert [s[0]] + s[1..] == s; }
        WithKey(s, key, k) + xk;
      }
    }
  }

  lemma AboveStaysAboveTail<T, K>(x: T, s: seq<T>, key: T -> K, lt: (K, K) -> bool)
    requires |s| > 0 && AboveStaysAbove(x, s, key, lt)
    ensures AboveStaysAbove(x, s[1..], key, lt)
  {
    forall i, j | 0 <= i <= j < |s[1..]| && lt(key(x), key(s[1..][i]))
      ensures key(s[1..][j]) != key(x)
    {
      assert s[1..][i] == s[i + 1] && s[1..][j] == s[j + 1];
    }
  }

  lemma AppendAssoc<T>(a: seq<T>, b: seq<T>, c: seq<T>)
    ensures a + (b + c) == (a + b) + c
  {
  }

  lemma WithKeyCons<T, K>(y: T, t: seq<T>, key: T -> K, k: K)
    ensures WithKey([y] + t, key, k) == (if key(y) == k then [y] else []) + WithKey(t, key, k)
  {
    assert ([y] + t)[1..] == t;
  }

  lemma {:induction false} WithKeyAppend<T, K>(a: seq<T>, b: seq<T>, key: T -> K, k: K)
    ensures WithKey(a + b, key, k) == WithKey(a, key, k) + WithKey(b, key, k)
  {
    if |a| == 0 {
      assert a + b == b;
    } else {
      assert (a + b)[0] == a[0];
      assert (a + b)[1..] == a[1..] + b;
      WithKeyAppend(a[1..], b, key, k);
    }
  }

  lemma {:induction false} SortBySorted<T, K(!new)>(xs: seq<T>, key: T -> K, lt: (K, K) -> bool)
    requires StrictTotal(lt)
    ensures SortedBy(SortBy(xs, key, lt), key, lt)
  {
    if |xs| > 0 {
      SortBySorted(xs[..|xs| - 1], key, lt);
      InsertSorted(xs[|xs| - 1], SortBy(xs[..|xs| - 1], key, lt), key, lt);
    }
  }

  lemma {:induction false} SortByKeepsKeyOrder<T, K(!new)>(xs: seq<T>, key: T -> K, lt: (K, K) -> bool, k: K)
    requires StrictTotal(lt)
    ensures WithKey(SortBy(xs, key, lt), key, k) == WithKey(xs, key, k)
  {
    if |xs| > 0 {
      var init := xs[..|xs| - 1];
      var x := xs[|xs| - 1];
      var sorted := SortBy(init, key, lt);
      var xk := if key(x) == k then [x] else [];
      SortBySorted(init, key, lt);
      SortedAboveStaysAbove(x, sorted, key, lt);
      calc {
        WithKey(SortBy(xs, key, lt), key, k);
        WithKey(Insert(x, sorted, key, lt), key, k);
        { InsertStable(x, sorted, key, lt, k); }
        WithKey(sorted, key, k) + xk;
        { SortByKeepsKeyOrder(init, key, lt, k); }
        WithKey(init, key, k) + xk;
        { WithKeyCons(x, [], key, k); assert [x] + [] == [x]; }
        WithKey(init, key, k) + WithKey([x], key, k);
        { WithKeyAppend(init, [x], key, k); assert init + [x] == xs; }
        WithKey(xs, key, k);
      }
    }
  }

  /** `SortBy` is the stable sort: a sorted permutation in which each key's
      elements keep their input order. */
  lemma SortByStable<T, K(!new)>(xs: seq<T>, key: T -> K, lt: (K, K) -> bool)
    requires StrictTotal(lt)
    ensures multiset(SortBy(xs, key, lt)) == multiset(xs)
    ensures SortedBy(SortBy(xs, key, lt), key, lt)
    ensures SameKeyOrder(SortBy(xs, key, lt), xs, key)
  {
    SortBySorted(xs, key, lt);
    forall k ensures WithKey(SortBy(xs, key, lt), key, k) == WithKey(xs, key, k) {
      SortByKeepsKeyOrder(xs, key, lt, k);
    }
  }

  /** `[list(g) for _, g in groupby(xs, key)]`: maximal runs of equal keys. */
  function GroupBy<T, K(==)>(xs: seq<T>, key: T -> K): (gs: seq<seq<T>>)
    ensures Flatten(gs) == xs
    ensures forall i :: 0 <= i < |gs| ==> |gs[i]| > 0
    ensures forall i, a :: 0 <= i < |gs| && 0 <= a < |gs[i]| ==> key(gs[i][a]) == key(gs[i][0])
    ensures forall i :: 0 <= i < |gs| - 1 ==> key(gs[i][0]) != key(gs[i + 1][0])
    ensures |xs| > 0 ==> |gs| > 0 && gs[0][0] == xs[0]
  {
    if |xs| == 0 then []
    else
      var rest := GroupBy(xs[1..], key);
      if |rest| > 0 && key(rest[0][0]) == key(xs[0]) then
        var gs := [[xs[0]] + rest[0]] + rest[1..];
        assert gs[1..] == rest[1..];
        assert Flatten(rest) == rest[0] + Flatten(rest[1..]);
        gs
      else
        var gs := [[xs[0]]] + rest;
        assert gs[1..] == rest;
        gs
  }

  predicate KeysIncrease<T, K>(gs: seq<seq<T>>, key: T -> K, lt: (K, K) -> bool)
    requires forall i :: 0 <= i < |gs| ==> |gs[i]| > 0
  {
    forall i, j :: 0 <= i < j < |gs| ==> lt(key(gs[i][0]), key(gs[j][0]))
  }

  /** Grouping a sorted sequence: the groups' keys strictly increase. */
  lemma {:induction false} GroupKeysIncrease<T, K(!new)>(xs: seq<T>, key: T -> K, lt: (K, K) -> bool)
    requires StrictTotal(lt) && SortedBy(xs, key, lt)
    ensures KeysIncrease(GroupBy(xs, key), key, lt)
  {
    if |xs| > 0 {
      var tail := xs[1..];
      assert SortedBy(tail, key, lt);
      GroupKeysIncrease(tail, key, lt);
      var rest := GroupBy(tail, key);
      assert KeysIncrease(rest, key, lt);
      var gs := GroupBy(xs, key);
      assert gs[0][0] == xs[0];
      if |rest| > 0 && key(rest[0][0]) == key(xs[0]) {
        assert gs == [[xs[0]] + rest[0]] + rest[1..];
        forall i, j | 0 <= i < j < |gs| ensures lt(key(gs[i][0]), key(gs[j][0])) {
          assert gs[j] == rest[j];
          if i > 0 {
            assert gs[i] == rest[i];
          }
        }
      } else if |rest| > 0 {
        assert gs == [[xs[0]]] + rest;
        assert rest[0][0] == xs[1];
        assert !lt(key(xs[1]), key(xs[0]));
        assert lt(key(xs[0]), key(rest[0][0]));
        forall i, j | 0 <= i < j < |gs| ensures lt(key(gs[i][0]), key(gs[j][0])) {
          assert gs[j] == rest[j - 1];
          if i > 0 {
            assert gs[i] == rest[i - 1];
          } else if j > 1 {
            assert lt(key(rest[0][0]), key(rest[j - 1][0]));
          }
        }
      }
    }
  }

  /** Two elements with equal keys are in the same group. */
  predicate DistinctGroupKeys<T, K(==)>(gs: seq<seq<T>>, key: T -> K) {
    forall i, j, a, b ::
      (0 <= i < |gs| && 0 <= j < |gs| && 0 <= a < |gs[i]| && 0 <= b < |gs[j]|
       && key(gs[i][a]) == key(gs[j][b])) ==> i == j
  }

  /** Grouping a sorted sequence: different groups have different keys, so
      two elements with equal keys are always in the same group. */
  lemma GroupsOfSortedAreDistinct<T, K(!new)>(xs: seq<T>, key: T -> K, lt: (K, K) -> bool)
    requires StrictTotal(lt) && SortedBy(xs, key, lt)
    ensures DistinctGroupKeys(GroupBy(xs, key), key)
  {
    GroupKeysIncrease(xs, key, lt);
  }
}
