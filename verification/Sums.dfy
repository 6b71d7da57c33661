/** Sums of a measure over a sequence. */
module Sums {

  function Total<T>(xs: seq<T>, f: T -> int): int {
    if xs == [] then 0 else Total(xs[..|xs| - 1], f) + f(xs[|xs| - 1])
  }

  lemma TotalSnoc<T>(xs: seq<T>, x: T, f: T -> int)
    ensures Total(xs + [x], f) == Total(xs, f) + f(x)
  {
    assert (xs + [x])[..|xs|] == xs;
  }

  lemma {:induction false} TotalUpdate<T>(xs: seq<T>, i: nat, x: T, f: T -> int)
    requires i < |xs|
    ensures Total(xs[i := x], f) == Total(xs, f) - f(xs[i]) + f(x)
  {
    var n := |xs| - 1;
    if i == n {
      assert xs[i := x][..n] == xs[..n];
    } else {
      assert xs[i := x][..n] == xs[..n][i := x];
      TotalUpdate(xs[..n], i, x, f);
    }
  }

  lemma {:induction false} TotalSame<T>(xs: seq<T>, ys: seq<T>, f: T -> int)
    requires |xs| == |ys| && forall i | 0 <= i < |xs| :: f(xs[i]) == f(ys[i])
    ensures Total(xs, f) == Total(ys, f)
  {
    if xs != [] {
      TotalSame(xs[..|xs| - 1], ys[..|ys| - 1], f);
    }
  }

  lemma {:induction false} TotalIsNonNegative<T>(xs: seq<T>, f: T -> int)
    requires forall i | 0 <= i < |xs| :: f(xs[i]) >= 0
    ensures Total(xs, f) >= 0
    ensures Total(xs, f) == 0 <==> forall i | 0 <= i < |xs| :: f(xs[i]) == 0
  {
    if xs != [] {
      var front := xs[..|xs| - 1];
      TotalIsNonNegative(front, f);
      assert forall i | 0 <= i < |front| :: front[i] == xs[i];
      if forall i | 0 <= i < |front| :: f(front[i]) == 0 {
        assert forall i | 0 <= i < |xs| - 1 :: f(xs[i]) == 0;
      } else {
        var i :| 0 <= i < |front| && f(front[i]) != 0;
        assert f(xs[i]) != 0;
      }
    }
  }
}
