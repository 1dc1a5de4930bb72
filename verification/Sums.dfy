/** Totals over a sequence of threads or nodes, and how they react to one element changing. */
module Sums {

  ghost function Sum<X>(xs: seq<X>, f: X -> nat): nat {
    if xs == [] then 0 else f(xs[0]) + Sum(xs[1..], f)
  }

  ghost function Bag<X>(xs: seq<X>, f: X -> multiset<nat>): multiset<nat> {
    if xs == [] then multiset{} else f(xs[0]) + Bag(xs[1..], f)
  }

  lemma {:induction false} SumUpdate<X>(xs: seq<X>, i: nat, x: X, f: X -> nat)
    requires i < |xs|
    ensures Sum(xs[i := x], f) + f(xs[i]) == Sum(xs, f) + f(x)
  {
    var ys := xs[i := x];
    if i == 0 {
      assert ys[1..] == xs[1..];
    } else {
      assert ys[1..] == xs[1..][i - 1 := x];
      SumUpdate(xs[1..], i - 1, x, f);
    }
  }

  lemma {:induction false} SumZero<X>(xs: seq<X>, f: X -> nat)
    requires forall i :: 0 <= i < |xs| ==> f(xs[i]) == 0
    ensures Sum(xs, f) == 0
  {
    if xs != [] {
      SumZero(xs[1..], f);
    }
  }

  lemma {:induction false} BagUpdate<X>(xs: seq<X>, i: nat, x: X, f: X -> multiset<nat>)
    requires i < |xs|
    ensures Bag(xs[i := x], f) + f(xs[i]) == Bag(xs, f) + f(x)
  {
    var ys := xs[i := x];
    if i == 0 {
      assert ys[1..] == xs[1..];
    } else {
      assert ys[1..] == xs[1..][i - 1 := x];
      BagUpdate(xs[1..], i - 1, x, f);
      assert xs[1..][i - 1] == xs[i] && ys[0] == xs[0];
      assert Bag(ys, f) + f(xs[i]) == f(xs[0]) + (Bag(ys[1..], f) + f(xs[i]));
      assert Bag(xs, f) + f(x) == f(xs[0]) + (Bag(xs[1..], f) + f(x));
    }
  }

  lemma {:induction false} BagCong<X>(xs: seq<X>, f: X -> multiset<nat>, g: X -> multiset<nat>)
    requires forall i :: 0 <= i < |xs| ==> f(xs[i]) == g(xs[i])
    ensures Bag(xs, f) == Bag(xs, g)
  {
    if xs != [] {
      BagCong(xs[1..], f, g);
    }
  }

  lemma BagCons<X>(x: X, xs: seq<X>, f: X -> multiset<nat>)
    ensures Bag([x] + xs, f) == f(x) + Bag(xs, f)
  {
    assert ([x] + xs)[1..] == xs;
  }

  lemma {:induction false} BagEmpty<X>(xs: seq<X>, f: X -> multiset<nat>)
    requires forall i :: 0 <= i < |xs| ==> f(xs[i]) == multiset{}
    ensures Bag(xs, f) == multiset{}
  {
    if xs != [] {
      BagEmpty(xs[1..], f);
    }
  }

  /** The size of a bag is the sum of its parts' sizes. */
  lemma {:induction false} BagSize<X>(xs: seq<X>, f: X -> multiset<nat>, g: X -> nat)
    requires forall i :: 0 <= i < |xs| ==> |f(xs[i])| == g(xs[i])
    ensures |Bag(xs, f)| == Sum(xs, g)
  {
    if xs != [] {
      BagSize(xs[1..], f, g);
    }
  }

  lemma {:induction false} BagLen<X>(xs: seq<X>, f: X -> multiset<nat>)
    requires forall i :: 0 <= i < |xs| ==> |f(xs[i])| == 1
    ensures |Bag(xs, f)| == |xs|
  {
    if xs != [] {
      BagLen(xs[1..], f);
    }
  }

  /** Two sequences of the same threads: a bound that holds thread by thread, strictly for one, holds for
      the totals. */
  lemma {:induction false} SumBoth<X, Y>(xs: seq<X>, ys: seq<Y>, k: int, f: X -> nat, g: X -> nat, h: Y -> nat)
    requires |xs| == |ys| && k < |xs|
    requires forall i :: 0 <= i < |xs| ==> f(xs[i]) <= g(xs[i]) + h(ys[i])
    requires 0 <= k ==> f(xs[k]) < g(xs[k]) + h(ys[k])
    ensures Sum(xs, f) + (if 0 <= k then 1 else 0) <= Sum(xs, g) + Sum(ys, h)
  {
    if xs != [] {
      SumBoth(xs[1..], ys[1..], k - 1, f, g, h);
    }
  }

  lemma {:induction false} SumAppend<X>(xs: seq<X>, x: X, f: X -> nat)
    ensures Sum(xs + [x], f) == Sum(xs, f) + f(x)
  {
    if xs == [] {
      assert xs + [x] == [x];
    } else {
      assert (xs + [x])[1..] == xs[1..] + [x];
      SumAppend(xs[1..], x, f);
    }
  }

  /** Two ledgers in a row: what is settled with what is left over is what was left over before with what is new. */
  lemma Chop<X>(a: seq<X>, w1: seq<X>, w: seq<X>, b: seq<X>, c: seq<X>, w2: seq<X>, d: seq<X>)
    requires a + w1 == w + b && c + w2 == w1 + d
    ensures (a + c) + w2 == w + (b + d)
  {
    assert (a + c) + w2 == a + (c + w2) == (a + w1) + d == w + (b + d);
  }
}
