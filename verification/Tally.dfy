/** Weighted sums and bags over a sequence of threads.

    Every protocol of this project keeps its threads in a sequence of program
    counters; "how many threads are at ..." is a sum of 0/1 weights, and one
    step of one thread changes one summand. */
module Tally {

  function Sum<A>(xs: seq<A>, w: A -> nat): nat {
    if xs == [] then 0 else w(xs[0]) + Sum(xs[1..], w)
  }

  /** One thread moving changes the sum by the difference of its two weights. */
  lemma {:induction false} SumUpdate<A>(xs: seq<A>, i: nat, x: A, w: A -> nat)
    requires i < |xs|
    ensures Sum(xs[i := x], w) + w(xs[i]) == Sum(xs, w) + w(x)
  {
    var ys := xs[i := x];
    if i == 0 {
      assert ys[1..] == xs[1..];
    } else {
      assert ys[1..] == xs[1..][i - 1 := x];
      SumUpdate(xs[1..], i - 1, x, w);
    }
  }

  lemma {:induction false} SumAtLeast<A>(xs: seq<A>, i: nat, w: A -> nat)
    requires i < |xs|
    ensures w(xs[i]) <= Sum(xs, w)
  {
    if i != 0 {
      SumAtLeast(xs[1..], i - 1, w);
    }
  }

  /** A positive sum has a witness, a zero sum has none. */
  lemma {:induction false} SumPositive<A>(xs: seq<A>, w: A -> nat)
    ensures Sum(xs, w) > 0 <==> exists i :: 0 <= i < |xs| && w(xs[i]) > 0
  {
    if xs != [] {
      SumPositive(xs[1..], w);
      if i :| 0 <= i < |xs[1..]| && w(xs[1..][i]) > 0 {
        assert w(xs[i + 1]) > 0;
      }
      if i :| 0 <= i < |xs| && w(xs[i]) > 0 && i != 0 {
        assert w(xs[1..][i - 1]) > 0;
      }
    }
  }

  lemma SumZero<A>(xs: seq<A>, w: A -> nat)
    requires forall i :: 0 <= i < |xs| ==> w(xs[i]) == 0
    ensures Sum(xs, w) == 0
  {
    SumPositive(xs, w);
  }

  /** Many threads moving at once, each from weight u to weight v or not at all. */
  lemma {:induction false} SumMove<A>(xs: seq<A>, ys: seq<A>, u: A -> nat, v: A -> nat)
    requires |xs| == |ys|
    requires forall i :: 0 <= i < |xs| ==> u(ys[i]) + v(ys[i]) == u(xs[i]) + v(xs[i])
    ensures Sum(ys, u) + Sum(ys, v) == Sum(xs, u) + Sum(xs, v)
  {
    if xs != [] {
      assert u(ys[0]) + v(ys[0]) == u(xs[0]) + v(xs[0]);
      SumMove(xs[1..], ys[1..], u, v);
    }
  }

  lemma {:induction false} SumLess<A>(xs: seq<A>, ys: seq<A>, w: A -> nat)
    requires |xs| == |ys|
    requires forall i :: 0 <= i < |xs| ==> w(ys[i]) <= w(xs[i])
    ensures Sum(ys, w) <= Sum(xs, w)
    ensures (exists i :: 0 <= i < |xs| && w(ys[i]) < w(xs[i])) ==> Sum(ys, w) < Sum(xs, w)
  {
    if xs != [] {
      assert w(ys[0]) <= w(xs[0]);
      SumLess(xs[1..], ys[1..], w);
      if i :| 0 <= i < |xs| && w(ys[i]) < w(xs[i]) && i != 0 {
        assert w(ys[1..][i - 1]) < w(xs[1..][i - 1]);
      }
    }
  }

  lemma {:induction false} FourMoreEach<A>(xs: seq<A>, ys: seq<A>, w: A -> nat)
    requires |xs| == |ys|
    requires forall i :: 0 <= i < |xs| ==> w(ys[i]) <= w(xs[i]) + 4
    ensures Sum(ys, w) <= Sum(xs, w) + 4 * |xs|
  {
    if xs != [] {
      assert w(ys[0]) <= w(xs[0]) + 4;
      FourMoreEach(xs[1..], ys[1..], w);
    }
  }

  lemma {:induction false} SumAppend<A>(a: seq<A>, b: seq<A>, w: A -> nat)
    ensures Sum(a + b, w) == Sum(a, w) + Sum(b, w)
  {
    if a == [] {
      assert a + b == b;
    } else {
      assert (a + b)[1..] == a[1..] + b;
      SumAppend(a[1..], b, w);
    }
  }

  lemma {:induction false} SumSnoc<A>(xs: seq<A>, x: A, w: A -> nat)
    ensures Sum(xs + [x], w) == Sum(xs, w) + w(x)
  {
    if xs != [] {
      assert (xs + [x])[1..] == xs[1..] + [x];
      SumSnoc(xs[1..], x, w);
    }
  }

  lemma {:induction false} SumBelow<A>(xs: seq<A>, u: A -> nat, v: A -> nat)
    requires forall i :: 0 <= i < |xs| ==> u(xs[i]) <= v(xs[i])
    ensures Sum(xs, u) <= Sum(xs, v)
  {
    if xs != [] {
      assert u(xs[0]) <= v(xs[0]);
      SumBelow(xs[1..], u, v);
    }
  }

  lemma {:induction false} SumSplit<A>(xs: seq<A>, w: A -> nat, u: A -> nat, v: A -> nat)
    requires forall i :: 0 <= i < |xs| ==> w(xs[i]) == u(xs[i]) + v(xs[i])
    ensures Sum(xs, w) == Sum(xs, u) + Sum(xs, v)
  {
    if xs != [] {
      assert w(xs[0]) == u(xs[0]) + v(xs[0]);
      SumSplit(xs[1..], w, u, v);
    }
  }

  lemma SumSame<A>(xs: seq<A>, ys: seq<A>, w: A -> nat)
    requires |xs| == |ys|
    requires forall i :: 0 <= i < |xs| ==> w(ys[i]) == w(xs[i])
    ensures Sum(ys, w) == Sum(xs, w)
  {
    SumLess(xs, ys, w);
    SumLess(ys, xs, w);
  }

  function Bag<A, B>(xs: seq<A>, f: A -> multiset<B>): multiset<B> {
    if xs == [] then multiset{} else f(xs[0]) + Bag(xs[1..], f)
  }

  lemma {:induction false} BagUpdate<A, B>(xs: seq<A>, i: nat, x: A, f: A -> multiset<B>)
    requires i < |xs|
    ensures Bag(xs[i := x], f) + f(xs[i]) == Bag(xs, f) + f(x)
  {
    var ys := xs[i := x];
    if i == 0 {
      assert ys[1..] == xs[1..];
    } else {
      var h, t, t' := f(xs[0]), Bag(xs[1..], f), Bag(ys[1..], f);
      assert ys[1..] == xs[1..][i - 1 := x];
      BagUpdate(xs[1..], i - 1, x, f);
      assert (h + t') + f(xs[i]) == h + (t' + f(xs[i]));
      assert (h + t) + f(x) == h + (t + f(x));
    }
  }

  lemma {:induction false} BagEmpty<A, B>(xs: seq<A>, f: A -> multiset<B>)
    requires forall i :: 0 <= i < |xs| ==> f(xs[i]) == multiset{}
    ensures Bag(xs, f) == multiset{}
  {
    if xs != [] {
      BagEmpty(xs[1..], f);
    }
  }

  lemma {:induction false} BagSame<A, B>(xs: seq<A>, ys: seq<A>, f: A -> multiset<B>)
    requires |xs| == |ys|
    requires forall i :: 0 <= i < |xs| ==> f(ys[i]) == f(xs[i])
    ensures Bag(ys, f) == Bag(xs, f)
  {
    if xs != [] {
      assert f(ys[0]) == f(xs[0]);
      BagSame(xs[1..], ys[1..], f);
    }
  }

  /** An element that puts its contribution into an empty place, or takes it out. */
  lemma BagGain<A, B>(xs: seq<A>, i: nat, x: A, f: A -> multiset<B>)
    requires i < |xs| && f(xs[i]) == multiset{}
    ensures Bag(xs[i := x], f) == Bag(xs, f) + f(x)
  {
    BagUpdate(xs, i, x, f);
    assert Bag(xs[i := x], f) + multiset{} == Bag(xs[i := x], f);
  }

  lemma BagLoss<A, B>(xs: seq<A>, i: nat, x: A, f: A -> multiset<B>)
    requires i < |xs| && f(x) == multiset{}
    ensures Bag(xs[i := x], f) + f(xs[i]) == Bag(xs, f)
  {
    BagUpdate(xs, i, x, f);
    assert Bag(xs, f) + multiset{} == Bag(xs, f);
  }

  /** Two balances in a row: what is in hand and comes in equals what goes out and is left in hand. */
  lemma Regroup<A>(h: seq<A>, taken: seq<A>, later: seq<A>, done: seq<A>, h': seq<A>, doneLater: seq<A>, end: seq<A>)
    requires h + taken == done + h' && h' + later == doneLater + end
    ensures h + (taken + later) == (done + doneLater) + end
  {
    assert h + (taken + later) == (done + h') + later == done + (h' + later);
  }
}
