/** Order-preserving filtering and flattening of sequences: the list
    comprehensions `[x for x in xs if p(x)]` and `[x for g in gs for x in g]`. */
module Seqs {

  function Filter<T(!new)>(xs: seq<T>, p: T -> bool): (r: seq<T>)
    ensures |r| <= |xs|
    ensures forall x :: x in r <==> x in xs && p(x)
    ensures multiset(r) <= multiset(xs)
  {
    if |xs| == 0 then []
    else
      assert xs == [xs[0]] + xs[1..];
      (if p(xs[0]) then [xs[0]] else []) + Filter(xs[1..], p)
  }

  lemma {:induction false} FilterAppend<T(!new)>(a: seq<T>, b: seq<T>, p: T -> bool)
    ensures Filter(a + b, p) == Filter(a, p) + Filter(b, p)
  {
    if |a| == 0 {
      assert a + b == b;
    } else {
      assert (a + b)[0] == a[0];
      assert (a + b)[1..] == a[1..] + b;
      FilterAppend(a[1..], b, p);
    }
  }

  /** Filtering keeps exactly the elements that satisfy `p`, in order: the
      elements dropped are exactly those that fail it. */
  lemma {:induction false} FilterSplits<T(!new)>(xs: seq<T>, p: T -> bool)
    ensures |Filter(xs, p)| + |Filter(xs, x => !p(x))| == |xs|
    ensures multiset(Filter(xs, p)) + multiset(Filter(xs, x => !p(x))) == multiset(xs)
  {
    if |xs| > 0 {
      FilterSplits(xs[1..], p);
      assert xs == [xs[0]] + xs[1..];
    }
  }

  function Flatten<T>(xss: seq<seq<T>>): seq<T> {
    if |xss| == 0 then [] else xss[0] + Flatten(xss[1..])
  }

  lemma {:induction false} FlattenAppend<T>(a: seq<seq<T>>, b: seq<seq<T>>)
    ensures Flatten(a + b) == Flatten(a) + Flatten(b)
  {
    if |a| == 0 {
      assert a + b == b;
    } else {
      assert (a + b)[0] == a[0];
      assert (a + b)[1..] == a[1..] + b;
      FlattenAppend(a[1..], b);
    }
  }

  lemma {:induction false} FlattenMembers<T>(xss: seq<seq<T>>)
    ensures forall i, a :: 0 <= i < |xss| && 0 <= a < |xss[i]| ==> xss[i][a] in Flatten(xss)
    ensures forall x :: x in Flatten(xss) ==> exists i :: 0 <= i < |xss| && x in xss[i]
  {
    forall i, a | 0 <= i < |xss| && 0 <= a < |xss[i]| ensures xss[i][a] in Flatten(xss) {
      FlattenHas(xss, i, a);
    }
    forall x | x in Flatten(xss) ensures exists i :: 0 <= i < |xss| && x in xss[i] {
      FlattenFrom(xss, x);
    }
  }

  lemma {:induction false} FlattenHas<T>(xss: seq<seq<T>>, i: int, a: int)
    requires 0 <= i < |xss| && 0 <= a < |xss[i]|
    ensures xss[i][a] in Flatten(xss)
    decreases i
  {
    assert Flatten(xss) == xss[0] + Flatten(xss[1..]);
    if i > 0 {
      assert xss[i] == xss[1..][i - 1];
      FlattenHas(xss[1..], i - 1, a);
    }
  }

  lemma {:induction false} FlattenFrom<T>(xss: seq<seq<T>>, x: T)
    requires x in Flatten(xss)
    ensures exists i :: 0 <= i < |xss| && x in xss[i]
    decreases |xss|
  {
    assert Flatten(xss) == xss[0] + Flatten(xss[1..]);
    if x !in xss[0] {
      FlattenFrom(xss[1..], x);
      var i :| 0 <= i < |xss[1..]| && x in xss[1..][i];
      assert x in xss[i + 1];
    }
  }
}
